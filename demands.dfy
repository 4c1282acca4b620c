/**
 * The demand table `necessidades`: for each child, the number of weekly
 * sessions required of each service type, in the table's own order.
 */
module Demands {
  import opened Domain
  import opened OrderedMaps

  /** One child's `{ fisioterapia: 1, terapiaOcupacional: 2, ... }`. */
  type Needs = Assoc<string, int>

  type Demand = Assoc<Child, Needs>

  /** `Object.values(needs)` summed. */
  function NeedsSum(s: Needs): int {
    if s == [] then 0 else s[0].1 + NeedsSum(s[1..])
  }

  /** The sum of every quantity of every child. */
  function DemandSum(d: Demand): int {
    if d == [] then 0 else NeedsSum(d[0].1) + DemandSum(d[1..])
  }

  /** One (child, service type, quantity) entry, in the order `Object.entries` visits it. */
  datatype Requirement = Requirement(crianca: Child, tipo: string, quantidade: int)

  function ChildRequirements(c: Child, s: Needs): (r: seq<Requirement>)
    ensures |r| == |s|
  {
    if s == [] then [] else [Requirement(c, s[0].0, s[0].1)] + ChildRequirements(c, s[1..])
  }

  /** The demand table flattened child by child, service by service. */
  function Requirements(d: Demand): seq<Requirement> {
    if d == [] then [] else ChildRequirements(d[0].0, d[0].1) + Requirements(d[1..])
  }

  function QuantitySum(rs: seq<Requirement>): int {
    if rs == [] then 0 else rs[0].quantidade + QuantitySum(rs[1..])
  }

  lemma {:induction false} QuantitySumAppend(a: seq<Requirement>, b: seq<Requirement>)
    ensures QuantitySum(a + b) == QuantitySum(a) + QuantitySum(b)
  {
    if a != [] {
      assert (a + b)[0] == a[0] && (a + b)[1..] == a[1..] + b;
      QuantitySumAppend(a[1..], b);
    } else {
      assert a + b == b;
    }
  }

  lemma {:induction false} ChildRequirementsSum(c: Child, s: Needs)
    ensures QuantitySum(ChildRequirements(c, s)) == NeedsSum(s)
  {
    if s != [] {
      ChildRequirementsSum(c, s[1..]);
      QuantitySumAppend([Requirement(c, s[0].0, s[0].1)], ChildRequirements(c, s[1..]));
    }
  }

  /** The flattened requirement list carries exactly the table's total. */
  lemma {:induction false} RequirementsSum(d: Demand)
    ensures QuantitySum(Requirements(d)) == DemandSum(d)
  {
    if d != [] {
      RequirementsSum(d[1..]);
      ChildRequirementsSum(d[0].0, d[0].1);
      QuantitySumAppend(ChildRequirements(d[0].0, d[0].1), Requirements(d[1..]));
    }
  }

  /** The sessions for (child, type), or 0 when either key is missing (`necessidades[c]?.[t] || 0`). */
  function Quantity(d: Demand, c: Child, t: string): int {
    Lookup(Lookup(d, c).GetOr([]), t).GetOr(0)
  }
}
