/**
 * The built-in data the application starts from: five professionals with
 * their weekly availability, and the weekly sessions each child needs.
 */
module Reference {
  import opened Wrappers
  import opened Domain
  import opened OrderedMaps
  import opened Demands
  import opened Allocation

  const AllTimes: seq<Time> := [H0800, H0900, H1000, H1100]

  /** The `profissionais` object, keyed by id. */
  const ReferenceCatalog: Catalog := map[
    "terapiaOcupacional" := Professional("Vany", "#8B5CF6", Week(AllTimes, AllTimes, AllTimes, AllTimes, AllTimes)),
    "psicopedagoga" := Professional("Tatiana", "#06B6D4", Week(AllTimes, AllTimes, AllTimes, AllTimes, AllTimes)),
    "fisioterapeuta" := Professional("Mylena", "#10B981", Week(AllTimes, [], [], AllTimes, AllTimes)),
    "at1" := Professional("Vitória", "#F59E0B", Week(AllTimes, [], [], AllTimes, AllTimes)),
    "psicologa1" := Professional("Ana Luiza", "#EF4444",
                                 Week([H0900, H1000, H1100], [], [H0900, H1000, H1100], [H0900, H1100], []))
  ]

  /** One child's row of the `necessidades` object, in its key order. */
  const ReferenceNeeds: Needs :=
    [("fisioterapia", 1), ("terapiaOcupacional", 2), ("psicopedagogia", 2), ("psicologia", 2), ("at", 9)]

  /** The `necessidades` object: the same row for both children. */
  const ReferenceDemand: Demand := [(Henrique, ReferenceNeeds), (Thiago, ReferenceNeeds)]

  /** The reference table asks for 32 sessions a week, 16 per child. */
  lemma ReferenceTotal()
    ensures NeedsSum(ReferenceNeeds) == 16
    ensures DemandSum(ReferenceDemand) == 32
  {
    assert ReferenceNeeds[1..][1..][1..][1..][1..] == [];
    var rest := ReferenceDemand[1..];
    assert rest == [(Thiago, ReferenceNeeds)] && rest[1..] == [];
    assert DemandSum(rest) == NeedsSum(ReferenceNeeds) + DemandSum([]);
    assert DemandSum(ReferenceDemand) == NeedsSum(ReferenceNeeds) + DemandSum(rest);
  }

  /** Each service type of a reference row is positive and served by a catalogued professional. */
  lemma ReferenceNeedsMapped(j: nat)
    requires j < |ReferenceNeeds|
    ensures ReferenceNeeds[j].1 > 0
    ensures ProfessionalFor(ReferenceNeeds[j].0).Some? && ProfessionalFor(ReferenceNeeds[j].0).value in ReferenceCatalog
  {
    if j == 0 {
      assert ProfessionalFor("fisioterapia") == Some("fisioterapeuta");
    } else if j == 1 {
      assert ProfessionalFor("terapiaOcupacional") == Some("terapiaOcupacional");
    } else if j == 2 {
      assert ProfessionalFor("psicopedagogia") == Some("psicopedagoga");
    } else if j == 3 {
      assert ProfessionalFor("psicologia") == Some("psicologa1");
    } else {
      assert ProfessionalFor("at") == Some("at1");
    }
  }

  /** Every requirement of the reference table is allocated, so none is skipped. */
  lemma ReferenceAllActive()
    ensures |Requirements(ReferenceDemand)| == 10
    ensures forall i :: 0 <= i < |Requirements(ReferenceDemand)| ==> Active(ReferenceCatalog, Requirements(ReferenceDemand)[i])
  {
    ChildRequirementsShape(Henrique, ReferenceNeeds);
    ChildRequirementsShape(Thiago, ReferenceNeeds);
    var rest := ReferenceDemand[1..];
    assert rest == [(Thiago, ReferenceNeeds)] && rest[1..] == [];
    assert Requirements(rest) == ChildRequirements(Thiago, ReferenceNeeds) + Requirements([]);
    var rs := Requirements(ReferenceDemand);
    assert rs == ChildRequirements(Henrique, ReferenceNeeds) + ChildRequirements(Thiago, ReferenceNeeds);
    forall i | 0 <= i < |rs| ensures Active(ReferenceCatalog, rs[i]) {
      var j := if i < 5 then i else i - 5;
      ReferenceNeedsMapped(j);
    }
  }
}
