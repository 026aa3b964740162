/**
 * The active policy hook (bpf/elephantshrew_active_tc.bpf.c): a rule is looked up for the packet's
 * exact flow, then for every packet, in the generation of rules that was active when the hook
 * began.  A controller publishes and switches generations between any two of the hook's accesses;
 * a generation, once published, is never changed.
 */
module Policy {
  import opened Shared
  import opened Counting
  import opened Parser
  import opened ParserLaws
  import opened Padding
  import opened TagOffload
  import Grammar
  import RoundTrip
  import Frames
  import opened Observer

  const INGRESS: byte := 0

  // es_policy_action
  const ACTION_NEXT: word32 := 0
  const ACTION_DROP: word32 := 1
  const ACTION_MIRROR: word32 := 2
  const ACTION_REDIRECT: word32 := 3

  // the counters the hook uses
  const POLICY_DROP: nat := 9
  const MIRROR_ATTEMPT: nat := 10
  const MIRROR_ERROR: nat := 11
  const REDIRECT_ATTEMPT: nat := 12

  datatype PolicyKey = PolicyKey(flow: FlowKey, kind: word32)

  const ZERO_KEY := PolicyKey(FlowKey(ZERO_TUPLE, 0, 0), 0)

  datatype Rule = Rule(action: word32, outIfindex: word32, generation: word64)

  type Generation = map<PolicyKey, Rule>

  /** What the helpers answer: the byte load, bpf_clone_redirect and bpf_redirect. */
  datatype Answers = Answers(load: bool, clone: int, redirect: int)

  datatype Egress = Mirrored(out: word32) | Redirected(out: word32)

  // --- The verdict of one generation ------------------------------------------------------------

  datatype Decision = Pass | Drop(counted: bool) | Mirror(out: word32) | Redirect(out: word32)

  function ExactKey(skb: Skb, load: bool): Option<PolicyKey> {
    var o := Decode(skb, load);
    if o.status == Ok && o.tuple.flags.portsValid then Some(PolicyKey(FlowKeyOf(skb, INGRESS, o.tuple), 1)) else None
  }

  function RuleFor(g: Generation, key: Option<PolicyKey>): Option<Rule> {
    if key.Some? && key.value in g then Some(g[key.value])
    else if ZERO_KEY in g then Some(g[ZERO_KEY])
    else None
  }

  function Judge(rule: Option<Rule>, ifindex: word32): Decision {
    match rule
    case None => Pass
    case Some(Rule(action, out, _)) =>
      if action == ACTION_NEXT then Pass
      else if action == ACTION_DROP || out == 0 || out == ifindex then Drop(true)
      else if action == ACTION_MIRROR then Mirror(out)
      else if action == ACTION_REDIRECT then Redirect(out)
      else Drop(false)
  }

  function Evaluate(g: Generation, skb: Skb, load: bool): Decision {
    Judge(RuleFor(g, ExactKey(skb, load)), skb.ifindex)
  }

  function CodeOf(d: Decision, h: Answers): int {
    match d
    case Pass => TC_NEXT
    case Drop(_) => TC_DROP
    case Mirror(_) => TC_NEXT
    case Redirect(_) => h.redirect
  }

  function SentBy(d: Decision): seq<Egress> {
    match d
    case Mirror(out) => [Mirrored(out)]
    case Redirect(out) => [Redirected(out)]
    case _ => []
  }

  /** Does a packet so decided count in counter `i`? */
  predicate Counts(i: nat, d: Decision, h: Answers) {
    || (i == POLICY_DROP && d == Drop(true))
    || (i == MIRROR_ATTEMPT && d.Mirror?)
    || (i == MIRROR_ERROR && d.Mirror? && h.clone < 0)
    || (i == REDIRECT_ATTEMPT && d.Redirect?)
  }

  function Tallied(c: Counters, d: Decision, h: Answers): Counters {
    seq(COUNTERS, i requires 0 <= i < COUNTERS => Plus(c[i], Bit(Counts(i, d, h))))
  }

  // --- The same in numbers ----------------------------------------------------------------------

  /** Which rule applies: that of the packet's own flow, if it has ports, before the default. */
  ghost predicate Applies(g: Generation, skb: Skb, load: bool, rule: Option<Rule>) {
    var zero := PolicyKey(FlowKey(ZERO_TUPLE, 0, 0), 0);
    var default := if zero in g then Some(g[zero]) else None;
    var vlan := if skb.vlanPresent then Some((skb.vlanTci % 65536) as word16) else None;
    && (!load || |skb.data| == 0 || EndsShort(skb.data, vlan) ==> rule == default)
    && forall d: Frames.Frame :: load && d.Valid() && d.Bytes() == skb.data && |skb.data| > 0 ==>
         var r := d.Read(vlan);
         var exact := PolicyKey(FlowKey(r.tuple, skb.ifindex, 0), 1);
         rule == if r.used <= 128 && r.status == Ok && r.tuple.flags.portsValid && exact in g then Some(g[exact])
                 else default
  }

  /** What must follow from the rule: the verdict, what is sent, and every counter by its number. */
  ghost predicate Obeys(
    rule: Option<Rule>, ifindex: word32, h: Answers, code: int, out: seq<Egress>, before: Counters, after: Counters)
  {
    match rule
    case None => code == -1 && out == [] && Counted(before, after, {})
    case Some(Rule(action, target, _)) =>
      if action == 0 then code == -1 && out == [] && Counted(before, after, {})
      else if action == 1 || target == 0 || target == ifindex then
        code == 2 && out == [] && Counted(before, after, {9})
      else if action == 2 then
        code == -1 && out == [Mirrored(target)] && Counted(before, after, if h.clone < 0 then {10, 11} else {10})
      else if action == 3 then
        code == h.redirect && out == [Redirected(target)] && Counted(before, after, {12})
      else code == 2 && out == [] && Counted(before, after, {})
  }

  ghost predicate Counted(before: Counters, after: Counters, which: set<int>) {
    forall i :: 0 <= i < 13 ==>
      if i in which then IsNext(after[i], before[i]) else after[i] == before[i]
  }

  lemma JudgedObeys(rule: Option<Rule>, ifindex: word32, h: Answers, c: Counters)
    ensures
      var d := Judge(rule, ifindex);
      Obeys(rule, ifindex, h, CodeOf(d, h), SentBy(d), c, Tallied(c, d, h))
  {
  }

  lemma RuleApplies(g: Generation, skb: Skb, load: bool)
    ensures Applies(g, skb, load, RuleFor(g, ExactKey(skb, load)))
  {
    hide EndsShort, ParseWhole;
    if load && |skb.data| > 0 {
      PaddingInvariance(skb.data, skb.Stripped());
      forall d: Frames.Frame | d.Valid() && d.Bytes() == skb.data
        ensures
          var o, r := ParseWhole(skb.data, skb.Stripped()), d.Read(skb.Stripped());
          if r.used > 128 then o.status == Truncated else o == Outcome(r.status, r.tuple)
      {
        RoundTrip.WholeFrame(d, skb.Stripped());
      }
    }
  }

  // --- The hook ---------------------------------------------------------------------------------

  datatype ControllerMove = Publish(g: Generation) | Activate(index: nat) | Withdraw

  class Classifier {
    var generations: seq<Generation>
    var active: Option<nat>
    var sent: seq<Egress>

    ghost predicate Valid() reads this { active.Some? ==> active.value < |generations| }

    /** At first the template, which has no rule, is active. */
    constructor ()
      ensures Valid() && generations == [map[]] && active == Some(0) && sent == []
    {
      generations, active, sent := [map[]], Some(0), [];
    }

    /** What the controller does meanwhile. */
    method Controller(moves: seq<ControllerMove>)
      requires Valid()
      modifies this`generations, this`active
      ensures Valid() && old(generations) <= generations
    {
      for k := 0 to |moves|
        invariant Valid() && old(generations) <= generations
      {
        match moves[k]
        case Publish(g) => generations := generations + [g];
        case Activate(index) => if index < |generations| { active := Some(index); }
        case Withdraw => active := None;
      }
    }

    /** bpf_map_lookup_elem on an inner map obtained earlier. */
    method Lookup(rules: nat, key: PolicyKey) returns (r: Option<Rule>)
      requires rules < |generations|
      ensures r == if key in generations[rules] then Some(generations[rules][key]) else None
    {
      r := if key in generations[rules] then Some(generations[rules][key]) else None;
    }

    /** Atomic increment of one counter. */
    method Increment(s: array<word64>, i: nat)
      requires s.Length == COUNTERS && i < COUNTERS
      modifies s
      ensures s[..] == old(s[..])[i := Plus(old(s[i]), 1)]
    {
      s[i] := Plus(s[i], 1);
    }

    /** The capture and parse, straight into the key. */
    method ParseInto(skb: Skb, load: bool, key: PolicyKey) returns (status: Status, key': PolicyKey)
      ensures status == Decode(skb, load).status
      ensures status == Ok ==> key' == key.(flow := key.flow.(tuple := Decode(skb, load).tuple))
    {
      status, key' := Truncated, key;
      var cap := |skb.data|;
      if cap > PARSE_BYTES { cap := PARSE_BYTES; }
      if cap != 0 && load {
        var bytes := skb.data[..cap];
        var tuple;
        status, tuple := EsParse(bytes, cap as u32, |skb.data| as u32, skb.Stripped());
        assert bytes[..cap] == bytes;
        key' := key'.(flow := key'.flow.(tuple := tuple));
      }
    }

    /** The two lookups, with the controller at work before each. */
    method Select(rules: nat, skb: Skb, load: bool, before: seq<ControllerMove>, between: seq<ControllerMove>)
      returns (r: Option<Rule>)
      requires Valid() && rules < |generations|
      modifies this`generations, this`active
      ensures Valid() && old(generations) <= generations
      ensures r == RuleFor(old(generations[rules]), ExactKey(skb, load))
    {
      ghost var g := generations[rules];
      var key := ZERO_KEY;
      var status;
      status, key := ParseInto(skb, load, key);
      Controller(before);
      assert generations[rules] == g;
      r := None;
      if status == Ok && key.flow.tuple.flags.portsValid {
        key := key.(kind := 1);
        key := key.(flow := key.flow.(ifindex := skb.ifindex));
        key := key.(flow := key.flow.(direction := INGRESS));
        r := Lookup(rules, key);
        assert ExactKey(skb, load) == Some(key);
      }
      Controller(between);
      assert generations[rules] == g;
      if r.None? {
        key := ZERO_KEY;
        r := Lookup(rules, key);
      }
    }

    /** From the selected rule to the verdict. */
    method Act(rule: Rule, skb: Skb, s: array<word64>, h: Answers) returns (code: int)
      requires s.Length == COUNTERS
      modifies this`sent, s
      ensures
        var d := Judge(Some(rule), skb.ifindex);
        code == CodeOf(d, h) && sent == old(sent) + SentBy(d) && s[..] == Tallied(old(s[..]), d, h)
      ensures |old(sent)| <= |sent|
      ensures Obeys(Some(rule), skb.ifindex, h, code, sent[|old(sent)|..], old(s[..]), s[..])
    {
      JudgedObeys(Some(rule), skb.ifindex, h, s[..]);
      if rule.action == ACTION_NEXT {
        return TC_NEXT;
      }
      if rule.action == ACTION_DROP {
        Increment(s, POLICY_DROP);
        return TC_DROP;
      }
      if rule.outIfindex == 0 || rule.outIfindex == skb.ifindex {
        Increment(s, POLICY_DROP);
        return TC_DROP;
      }
      if rule.action == ACTION_MIRROR {
        Increment(s, MIRROR_ATTEMPT);
        sent := sent + [Mirrored(rule.outIfindex)];
        if h.clone < 0 {
          Increment(s, MIRROR_ERROR);
        }
        return TC_NEXT;
      }
      if rule.action == ACTION_REDIRECT {
        Increment(s, REDIRECT_ATTEMPT);
        sent := sent + [Redirected(rule.outIfindex)];
        return h.redirect;
      }
      return TC_DROP;
    }

    /**
     * es_active_ingress.  Whatever the controller does meanwhile, the verdict, what is sent and what
     * is counted are those of the one generation active at the outer lookup; without one, or
     * without counters, the packet passes untouched.  Nothing is ever sent out of interface 0 or
     * back out of the one it came in by.
     */
    method ActiveIngress(skb: Skb, s: array?<word64>, h: Answers, meanwhile: seq<seq<ControllerMove>>)
      returns (code: int)
      requires Valid() && |meanwhile| == 3 && (s != null ==> s.Length == COUNTERS)
      modifies this, s
      ensures Valid() && old(generations) <= generations
      ensures s == null || old(active).None? ==>
                code == TC_NEXT && sent == old(sent) && (s != null ==> s[..] == old(s[..]))
      ensures s != null && old(active).Some? ==>
                var d := Evaluate(old(generations[active.value]), skb, h.load);
                code == CodeOf(d, h) && sent == old(sent) + SentBy(d) && s[..] == Tallied(old(s[..]), d, h)
      ensures old(sent) <= sent
      ensures s != null && old(active).Some? ==>
                exists rule ::
                  && Applies(old(generations[active.value]), skb, h.load, rule)
                  && Obeys(rule, skb.ifindex, h, code, sent[|old(sent)|..], old(s[..]), s[..])
      ensures forall k :: |old(sent)| <= k < |sent| ==> sent[k].out != 0 && sent[k].out != skb.ifindex
    {
      if active.Some? {
        RuleApplies(generations[active.value], skb, h.load);
      }
      hide Applies, Obeys;
      if s != null {
        JudgedObeys(None, skb.ifindex, h, s[..]);
      }
      var rules := active;
      Controller(meanwhile[0]);
      if rules.None? || s == null {
        return TC_NEXT;
      }
      assert generations[rules.value] == old(generations[active.value]);
      var r := Select(rules.value, skb, h.load, meanwhile[1], meanwhile[2]);
      if r.None? {
        return TC_NEXT;
      }
      code := Act(r.value, skb, s, h);
    }
  }

  // --- Properties of the verdict ----------------------------------------------------------------

  const DROPPING := Rule(ACTION_DROP, 0, 0)

  /** A generation with one rule, for one flow, drops that flow and nothing else. */
  lemma OneRule(skb: Skb, load: bool, key: PolicyKey)
    requires key != ZERO_KEY
    ensures Evaluate(map[key := DROPPING], skb, load) == if ExactKey(skb, load) == Some(key) then Drop(true) else Pass
  {
  }

  /**
   * Two packets from one interface get the same verdict in every generation exactly if they have
   * the same flow, or neither has one.
   */
  lemma VerdictsFollowFlows(a: Skb, loadA: bool, b: Skb, loadB: bool)
    requires a.ifindex == b.ifindex
    ensures (forall g: Generation :: Evaluate(g, a, loadA) == Evaluate(g, b, loadB))
            <==> ExactKey(a, loadA) == ExactKey(b, loadB)
  {
    var k, l := ExactKey(a, loadA), ExactKey(b, loadB);
    if k != l {
      var key := if k.Some? then k.value else l.value;
      OneRule(a, loadA, key);
      OneRule(b, loadB, key);
      assert Evaluate(map[key := DROPPING], a, loadA) != Evaluate(map[key := DROPPING], b, loadB);
    }
  }

  function Amended(g: Generation, key: PolicyKey, rule: Rule): Generation {
    g[key := rule]
  }

  /**
   * A key makes no difference to a packet, whatever rule is put under it, exactly if it is neither
   * the packet's flow nor, where that flow has no rule, the default.
   */
  lemma RuleIsolation(g: Generation, key: PolicyKey, skb: Skb, load: bool)
    ensures
      var exact := ExactKey(skb, load);
      (forall rule :: Evaluate(Amended(g, key, rule), skb, load) == Evaluate(g, skb, load))
      <==> exact != Some(key) && (key == ZERO_KEY ==> exact.Some? && exact.value in g)
  {
    var exact := ExactKey(skb, load);
    var pass := Rule(ACTION_NEXT, 0, 0);
    if exact == Some(key) || (key == ZERO_KEY && (exact.None? || exact.value !in g)) {
      assert Evaluate(Amended(g, key, pass), skb, load) == Pass;
      assert Evaluate(Amended(g, key, DROPPING), skb, load) == Drop(true);
    }
  }

  /**
   * The flow a rule is looked up for is the one the observer's step accounts the same packet to,
   * and a packet without one leaves the observer's flow table alone.
   */
  lemma ExactKeyIsCountedFlow(cfg: Config, s: HookState, skb: Skb, h: Helpers)
    requires cfg.flowEnabled != 0
    ensures
      var after := Step(cfg, s, skb, INGRESS, h).flows;
      match ExactKey(skb, h.load)
      case None => after == s.flows
      case Some(key) => key.kind == 1 && after == FlowsAfter(s.flows, key.flow, h.now, |skb.data|, h.flow)
  {
    hide Decode, FlowsAfter, CountersAfter, Published;
  }

  /**
   * Trailing bytes change the verdict in no generation exactly if not both the frame ended short
   * and the padded one is decoded to its ports.
   */
  lemma PaddingKeepsVerdict(skb: Skb, pad: seq<byte>, load: bool)
    requires |skb.data + pad| < 0x1_0000_0000
    ensures
      var padded := skb.(data := skb.data + pad);
      (forall g: Generation :: Evaluate(g, padded, load) == Evaluate(g, skb, load))
      <==> !(EndsShort(skb.data, skb.Stripped()) && ExactKey(padded, load).Some?)
  {
    hide EndsShort, ParseWhole;
    var padded := skb.(data := skb.data + pad);
    VerdictsFollowFlows(padded, load, skb, load);
    if EndsShort(skb.data, skb.Stripped()) {
      PaddingInvariance(skb.data, skb.Stripped());
      assert ExactKey(skb, load) == None;
    } else {
      PaddingKeeps(skb.data, pad, skb.Stripped());
      NotEmpty(skb.data, skb.Stripped());
    }
  }

  lemma NotEmpty(f: seq<byte>, stripped: Option<word16>)
    requires !EndsShort(f, stripped)
    ensures |f| > 0
  {
  }

  /** The packet as it arrives when the driver leaves its outer tag in band. */
  function InBand(skb: Skb, tpid: word16): Skb
    requires |skb.data| >= 12 && |skb.data| + 4 < 0x1_0000_0000
  {
    skb.(data := InsertTag(skb.data, tpid, skb.vlanTci % 0x1_0000), vlanPresent := false)
  }

  /** A transport header that ends in the four bytes of capture which the tag in band pushes out. */
  ghost predicate LatePorts(skb: Skb) {
    var tci, r := skb.vlanTci % 0x1_0000, Grammar.ReadFrame(skb.data, skb.Stripped());
    LateHeader(skb.data, skb.data, tci) && r.status == Ok && r.tuple.flags.portsValid
  }

  /**
   * The tag's way to the hook, in band or stripped, changes the verdict in no generation exactly if
   * the packet has no late ports.
   */
  lemma TagOffloadKeepsVerdict(skb: Skb, tpid: word16)
    requires 14 <= |skb.data| < 0x1_0000_0000 - 4 && IsVlan(tpid) && skb.vlanPresent
    ensures (forall g: Generation :: Evaluate(g, InBand(skb, tpid), true) == Evaluate(g, skb, true))
            <==> !LatePorts(skb)
  {
    hide ThirdTagSeen, InsertTag;
    var tci, f, inBand := skb.vlanTci % 0x1_0000, skb.data, InBand(skb, tpid);
    var p := f[..Min(|f|, PARSE_BYTES)];
    VerdictsFollowFlows(inBand, true, skb, true);
    CaptureOffload(f, tpid, tci);
    Grammar.ParseAnswers(p, f, Some(tci));
  }

  /** Tag offload of a whole frame, each way through its own capture of at most 128 bytes. */
  lemma CaptureOffload(f: seq<byte>, tpid: word16, tci: word16)
    requires |f| >= 14 && IsVlan(tpid)
    ensures
      var stripped, inBand := ParseWhole(f, Some(tci)), ParseWhole(InsertTag(f, tpid, tci), None);
      if LateHeader(f, f, tci) then inBand.status == Truncated != stripped.status
      else inBand.status == stripped.status && (stripped.status == Ok ==> inBand == stripped)
  {
    hide Grammar.ReadFrame, ParseCapture;
    var p := f[..Min(|f|, PARSE_BYTES)];
    var g := InsertTag(f, tpid, tci);
    TagOffloadEquivalence(p, f, tpid, tci);
    assert InsertTag(p, tpid, tci)[..Min(|f| + 4, PARSE_BYTES)] == g[..Min(|g|, PARSE_BYTES)];
    SameWindow(InsertTag(p, tpid, tci), g[..Min(|g|, PARSE_BYTES)], |g|);
  }

  lemma SameWindow(p: seq<byte>, q: seq<byte>, n: nat)
    requires p[..Clamp(|p|, n)] == q[..Clamp(|q|, n)]
    ensures Parse(p, n, None) == Parse(q, n, None)
  {
  }

  /** Every described frame whose ports end late is such a packet; LATE of module TagOffload is one. */
  lemma LatePackets(d: Frames.Frame, ifindex: word32, tci: word16)
    requires d.Valid() && |d.Bytes()| < 0x1_0000_0000
    requires PARSE_BYTES - 4 < d.Read(Some(tci)).used <= PARSE_BYTES
    requires d.Read(Some(tci)).status == Ok && d.Read(Some(tci)).tuple.flags.portsValid
    ensures LatePorts(Skb(d.Bytes(), ifindex, true, tci))
  {
    hide LateHeader, Grammar.ReadFrame, Frames.Frame.Bytes, Frames.Frame.Valid, Frames.Frame.Read;
    LateFrames(d, tci);
    RoundTrip.ReadEncoded(d, Some(tci));
  }

  // --- Counters over a run ----------------------------------------------------------------------

  datatype Judged = Judged(d: Decision, h: Answers)

  function CountersOf(run: seq<Judged>): Counters {
    if run == [] then [0, 0, 0, 0, 0, 0, 0, 0, 0, 0, 0, 0, 0]
    else Tallied(CountersOf(run[..|run| - 1]), run[|run| - 1].d, run[|run| - 1].h)
  }

  predicate IsMirror(j: Judged) { j.d.Mirror? }
  predicate IsMirrorError(j: Judged) { j.d.Mirror? && j.h.clone < 0 }
  predicate IsRedirect(j: Judged) { j.d.Redirect? }
  predicate IsCountedDrop(j: Judged) { j.d == Drop(true) }

  /** Each counter is the number of packets so decided. */
  lemma {:induction false} CounterTally(run: seq<Judged>, i: nat, p: Judged -> bool)
    requires |run| < TWO_64 && i < COUNTERS && forall j :: p(j) <==> Counts(i, j.d, j.h)
    ensures CountersOf(run)[i] == Count(run, p)
  {
    if run != [] {
      var before, last := run[..|run| - 1], run[|run| - 1];
      CounterTally(before, i, p);
      assert run == before + [last];
      CountAppend(before, last, p);
    }
  }

  /** The counters tell the packets apart; failed mirrorings are among the attempted. */
  lemma CountersTally(run: seq<Judged>)
    requires |run| < TWO_64
    ensures CountersOf(run)[POLICY_DROP] == Count(run, IsCountedDrop)
    ensures CountersOf(run)[MIRROR_ATTEMPT] == Count(run, IsMirror)
    ensures CountersOf(run)[REDIRECT_ATTEMPT] == Count(run, IsRedirect)
    ensures CountersOf(run)[MIRROR_ERROR] == Count(run, IsMirrorError) <= Count(run, IsMirror)
  {
    CounterTally(run, POLICY_DROP, IsCountedDrop);
    CounterTally(run, MIRROR_ATTEMPT, IsMirror);
    CounterTally(run, REDIRECT_ATTEMPT, IsRedirect);
    CounterTally(run, MIRROR_ERROR, IsMirrorError);
    CountMonotone(run, IsMirrorError, IsMirror);
  }
}
