/** What a node does with traffic under a document: the first rule that takes it wins, and
    traffic no rule takes leaves through "direct". */
module ForwardingTable {
  import opened Converter

  /** The match conditions of one connection, uninterpreted: does (match type, value) hold?
      They depend on the connection alone, so they are the same on every node. */
  type Conn = (string, string) -> bool

  datatype Decision = Leave | Drop | Forward(endpoint: Endpoint)

  predicate Takes(rule: Rule, tag: string, conn: Conn) {
    if rule.InboundRule? then rule.inboundTag == tag else conn(rule.matchType, rule.matchValue)
  }

  function Through(out: Outbound): Decision {
    if out.DirectOut? then Leave else Forward(out.endpoint)
  }

  function Via(outbounds: seq<Outbound>, outTag: string): Decision {
    if outbounds == [] then Drop
    else if outbounds[0].Tag() == outTag then Through(outbounds[0])
    else Via(outbounds[1..], outTag)
  }

  function Act(rule: Rule, outbounds: seq<Outbound>): Decision {
    if rule.RejectRule? then Drop else Via(outbounds, rule.outboundTag)
  }

  function DecideFrom(rules: seq<Rule>, outbounds: seq<Outbound>, tag: string, conn: Conn): Decision {
    if rules == [] then Leave
    else if Takes(rules[0], tag, conn) then Act(rules[0], outbounds)
    else DecideFrom(rules[1..], outbounds, tag, conn)
  }

  function Decide(doc: Document, tag: string, conn: Conn): Decision {
    DecideFrom(doc.rules, doc.outbounds, tag, conn)
  }

  lemma {:induction false} SkipUntaken(rules: seq<Rule>, k: nat, outbounds: seq<Outbound>, tag: string, conn: Conn)
    requires k <= |rules| && forall j | 0 <= j < k :: !Takes(rules[j], tag, conn)
    ensures DecideFrom(rules, outbounds, tag, conn) == DecideFrom(rules[k..], outbounds, tag, conn)
  {
    if k > 0 {
      SkipUntaken(rules[1..], k - 1, outbounds, tag, conn);
      assert rules[1..][k - 1..] == rules[k..];
    } else {
      assert rules[0..] == rules;
    }
  }

  lemma {:induction false} FirstTakenDecides(rules: seq<Rule>, k: nat, outbounds: seq<Outbound>, tag: string, conn: Conn)
    requires k < |rules| && Takes(rules[k], tag, conn)
    requires forall j | 0 <= j < k :: !Takes(rules[j], tag, conn)
    ensures DecideFrom(rules, outbounds, tag, conn) == Act(rules[k], outbounds)
  {
    SkipUntaken(rules, k, outbounds, tag, conn);
  }

  lemma {:induction false} ViaDistinct(outbounds: seq<Outbound>, k: nat)
    requires k < |outbounds|
    requires forall i, j | 0 <= i < j < |outbounds| :: outbounds[i].Tag() != outbounds[j].Tag()
    ensures Via(outbounds, outbounds[k].Tag()) == Through(outbounds[k])
  {
    if k > 0 {
      ViaDistinct(outbounds[1..], k - 1);
    }
  }
}
