/** What a whole clean-up guarantees. */
module StageGuarantees {
  import opened Wrappers
  import opened StageNames
  import opened StageCleanup

  /** Exactly the standard stage of each canonical name, once each, and no other of the type. */
  ghost predicate OnePerName(stages: Stages, ptype: string, homes: Homes) {
    && Complete(homes)
    && (forall c :: c in homes ==> homes[c] in stages && stages[homes[c]] == Standard(ptype, c))
    && (forall id :: OfType(stages, ptype, id) ==> exists c :: c in homes && homes[c] == id)
  }

  lemma OneStagePerNameAndType(before: Stages, between: Stages, after: Stages, oh: Homes, lh: Homes)
    requires CleanedUp(before, between, after, oh, lh)
    ensures OnePerName(after, OPPORTUNITY, oh) && OnePerName(after, LEAD, lh)
  {
    forall id | OfType(after, OPPORTUNITY, id) ensures exists c :: c in oh && oh[c] == id {
      assert OfType(between, OPPORTUNITY, id);
    }
  }

  /** So a stage is found by name: it is there, it is active, and it is the only one. */
  lemma NamesAreUnique(stages: Stages, ptype: string, homes: Homes, c: Canonical, id: Id)
    requires OnePerName(stages, ptype, homes)
    ensures OfType(stages, ptype, id) && stages[id].name == NameOf(c) <==> id == homes[c]
    ensures stages[homes[c]].isActive
  {
    if OfType(stages, ptype, id) && stages[id].name == NameOf(c) {
      var d :| d in homes && homes[d] == id;
      CanonicalNamesStay(c);
      CanonicalNamesStay(d);
    }
  }

  /** The stages a lead may refer to are the same before and after the opportunity turn. */
  lemma LeadsReadTheSameStages(before: Stages, between: Stages, oh: Homes, id: Id)
    requires Cleaned(before, between, OPPORTUNITY, oh)
    ensures OfType(between, LEAD, id) <==> OfType(before, LEAD, id)
    ensures OfType(before, LEAD, id) ==> between[id] == before[id]
  {
  }

  /** A reference to a stage of its own type lands on the standard stage for the old name. */
  lemma ReferencesLandOnMeaning(
    before: Stages, between: Stages, after: Stages, oh: Homes, lh: Homes, opportunities: References, leads: References)
    requires CleanedUp(before, between, after, oh, lh)
    ensures forall o :: o in opportunities && opportunities[o].Some? && OfType(before, OPPORTUNITY, opportunities[o].value) ==>
      Lands(Rehomed(before, OPPORTUNITY, oh, opportunities)[o], after, OPPORTUNITY, Meaning(before, opportunities[o].value))
    ensures forall l :: l in leads && leads[l].Some? && OfType(before, LEAD, leads[l].value) ==>
      Lands(LeadsAfter(before, between, lh, leads)[l], after, LEAD, Meaning(before, leads[l].value))
  {
    OneStagePerNameAndType(before, between, after, oh, lh);
    forall l | l in leads && leads[l].Some? && OfType(before, LEAD, leads[l].value)
      ensures Lands(LeadsAfter(before, between, lh, leads)[l], after, LEAD, Meaning(before, leads[l].value))
    {
      LeadsReadTheSameStages(before, between, oh, leads[l].value);
    }
  }

  ghost predicate Lands(ref: Option<Id>, stages: Stages, ptype: string, c: Canonical) {
    ref.Some? && ref.value in stages && stages[ref.value] == Standard(ptype, c)
  }

  /** The stage that stands, by name, for an old name. */
  ghost predicate StandsFor(name: string, standard: string) {
    && (standard == "Won" <==> name == "Won" || Lower(name) in {"closed won", "closed_won", "converted"})
    && (standard == "Lost" <==> name == "Lost" || Lower(name) in {"closed lost", "closed_lost", "disqualified"})
    && (standard == "Proposal" <==> name == "Proposal" || Lower(name) in {"engaged", "qualified"})
    && (standard == "Negotiation" <==> name == "Negotiation" || Lower(name) in {"needs analysis", "needs_analysis"})
    && (standard == "Scoping" <==> name == "Scoping")
    && (standard == "Stalling" <==> name == "Stalling" || Lower(name) == "nurturing")
    && standard in {"Discovery", "Proposal", "Negotiation", "Scoping", "Stalling", "Won", "Lost"}
  }

  lemma MeaningStandsFor(name: string)
    ensures StandsFor(name, NameOf(CanonicalOf(name)))
  {
    WhatNamesMean(name);
    assert NameOf(CanonicalOf(name))[0] in {'D', 'P', 'N', 'S', 'W', 'L'};
  }

  /** So a deal that was won is still won, one that was lost still lost, and so on, name by name. */
  lemma ReferencesLandByName(
    before: Stages, between: Stages, after: Stages, oh: Homes, lh: Homes, opportunities: References, leads: References)
    requires CleanedUp(before, between, after, oh, lh)
    ensures forall o :: o in opportunities && opportunities[o].Some? && OfType(before, "opportunity", opportunities[o].value) ==>
      var moved := Rehomed(before, OPPORTUNITY, oh, opportunities)[o];
      && moved.Some? && moved.value in after && after[moved.value].isActive && after[moved.value].pipelineType == "opportunity"
      && StandsFor(before[opportunities[o].value].name, after[moved.value].name)
    ensures forall l :: l in leads && leads[l].Some? && OfType(before, "lead", leads[l].value) ==>
      var moved := LeadsAfter(before, between, lh, leads)[l];
      && moved.Some? && moved.value in after && after[moved.value].isActive && after[moved.value].pipelineType == "lead"
      && StandsFor(before[leads[l].value].name, after[moved.value].name)
  {
    ReferencesLandOnMeaning(before, between, after, oh, lh, opportunities, leads);
    forall o | o in opportunities && opportunities[o].Some? && OfType(before, OPPORTUNITY, opportunities[o].value)
      ensures Lands(Rehomed(before, OPPORTUNITY, oh, opportunities)[o], after, OPPORTUNITY, Meaning(before, opportunities[o].value))
      ensures StandsFor(before[opportunities[o].value].name, NameOf(Meaning(before, opportunities[o].value)))
    {
      MeaningStandsFor(before[opportunities[o].value].name);
    }
    forall l | l in leads && leads[l].Some? && OfType(before, LEAD, leads[l].value)
      ensures Lands(LeadsAfter(before, between, lh, leads)[l], after, LEAD, Meaning(before, leads[l].value))
      ensures StandsFor(before[leads[l].value].name, NameOf(Meaning(before, leads[l].value)))
    {
      MeaningStandsFor(before[leads[l].value].name);
    }
  }

  /**
   * A lead loses its stage exactly when that is an opportunity stage with an older one of the same
   * meaning: the stage is deleted, only opportunities are remapped, and the lead is set to NULL.
   */
  lemma LeadLosesStageIff(
    before: Stages, between: Stages, after: Stages, oh: Homes, lh: Homes, leads: References, l: Id)
    requires CleanedUp(before, between, after, oh, lh) && l in leads && leads[l].Some?
    ensures LeadsAfter(before, between, lh, leads)[l].None? <==> Duplicate(before, OPPORTUNITY, leads[l].value)
  {
    LeadsReadTheSameStages(before, between, oh, leads[l].value);
  }

  /** A reference to a stage of the other type that is not deleted stays as it is. */
  lemma OtherReferencesStay(
    before: Stages, between: Stages, after: Stages, oh: Homes, lh: Homes, opportunities: References, leads: References)
    requires CleanedUp(before, between, after, oh, lh)
    ensures forall o :: o in opportunities && (opportunities[o].None? || !OfType(before, OPPORTUNITY, opportunities[o].value)) ==>
      Rehomed(before, OPPORTUNITY, oh, opportunities)[o] == opportunities[o]
    ensures forall l :: l in leads && leads[l].None? ==> LeadsAfter(before, between, lh, leads)[l] == None
    ensures forall l :: l in leads && leads[l].Some? && !OfType(before, LEAD, leads[l].value) ==>
      LeadsAfter(before, between, lh, leads)[l] ==
        if Duplicate(before, OPPORTUNITY, leads[l].value) then None else leads[l]
  {
    forall l | l in leads && leads[l].Some? && !OfType(before, LEAD, leads[l].value)
      ensures !OfType(between, LEAD, leads[l].value)
    {
      LeadsReadTheSameStages(before, between, oh, leads[l].value);
    }
  }

  /** Two stages of one type that mean Discovery. */
  function Twins(ptype: string): Stages {
    map[1 := Stage("new", ptype, true, ConfigOf(Discovery)), 2 := Stage("prospecting", ptype, true, ConfigOf(Discovery))]
  }

  lemma SecondTwinIsDuplicate(ptype: string)
    ensures Duplicates(Twins(ptype), ptype) == {2}
  {
    var stages := Twins(ptype);
    assert Lower("new") == "new" && Lower("prospecting") == "prospecting";
    assert OfType(stages, ptype, 1) && OfType(stages, ptype, 2) && Meaning(stages, 1) == Meaning(stages, 2);
    assert Duplicate(stages, ptype, 2);
    SameSet(Duplicates(stages, ptype), {2});
  }

  /** An opportunity in the younger of two such lead stages makes the whole script roll back. */
  lemma OpportunityInLeadTwinAborts()
    ensures Refused(map[7 := Some(2)], Duplicates(Twins(LEAD), LEAD))
    ensures !Refused(map[7 := Some(1)], Duplicates(Twins(LEAD), LEAD))
  {
    SecondTwinIsDuplicate(LEAD);
    var opportunities: References := map[7 := Some(2)];
    assert opportunities[7].Some?;
  }

  /** A lead in the younger of two such opportunity stages ends without a stage. */
  lemma LeadInOpportunityTwinLosesIt()
    ensures Nulled(map[7 := Some(2), 8 := Some(1)], Duplicates(Twins(OPPORTUNITY), OPPORTUNITY))
      == map[7 := None, 8 := Some(1)]
  {
    SecondTwinIsDuplicate(OPPORTUNITY);
  }

  lemma CleanHomeStays(stages: Stages, after: Stages, ptype: string, homes: Homes, again: Homes, c: Canonical)
    requires OnePerName(stages, ptype, homes) && Cleaned(stages, after, ptype, again)
    ensures c in homes && c in again && again[c] == homes[c]
  {
    CanonicalNamesStay(c);
    assert OfType(stages, ptype, homes[c]) && Meaning(stages, homes[c]) == c;
    var d :| d in homes && homes[d] == again[c];
    CanonicalNamesStay(d);
  }

  /** A clean type already has the homes any clean-up would choose. */
  lemma CleanHomesStay(stages: Stages, after: Stages, ptype: string, homes: Homes, again: Homes)
    requires OnePerName(stages, ptype, homes) && Cleaned(stages, after, ptype, again)
    ensures again == homes
  {
    forall c ensures c in homes && c in again && again[c] == homes[c] {
      CleanHomeStays(stages, after, ptype, homes, again, c);
    }
    SameMap(homes, again);
  }

  lemma CleanStagesStay(stages: Stages, after: Stages, ptype: string, homes: Homes)
    requires OnePerName(stages, ptype, homes) && Cleaned(stages, after, ptype, homes)
    ensures after == stages
  {
    forall id ensures id in stages <==> id in after {
      if OfType(after, ptype, id) { var c :| c in homes && homes[c] == id; }
      if OfType(stages, ptype, id) { var c :| c in homes && homes[c] == id; }
    }
    forall id | id in stages ensures after[id] == stages[id] {
      if OfType(stages, ptype, id) { var c :| c in homes && homes[c] == id; }
    }
    SameMap(stages, after);
  }

  lemma CleanReferencesStay(stages: Stages, ptype: string, homes: Homes, refs: References)
    requires OnePerName(stages, ptype, homes) && KeepsOldest(stages, ptype, homes)
    ensures Rehomed(stages, ptype, homes, refs) == refs
  {
    forall r | r in refs ensures Rehomed(stages, ptype, homes, refs)[r] == refs[r] {
      if refs[r].Some? && OfType(stages, ptype, refs[r].value) {
        var c :| c in homes && homes[c] == refs[r].value;
        CanonicalNamesStay(c);
      }
    }
    SameMap(Rehomed(stages, ptype, homes, refs), refs);
  }

  /** Cleaning a type that is clean changes no stage, no reference and no id sequence. */
  lemma CleanStaysClean(stages: Stages, after: Stages, ptype: string, homes: Homes, again: Homes, refs: References)
    requires OnePerName(stages, ptype, homes) && Cleaned(stages, after, ptype, again)
    ensures after == stages && again == homes && AllExist(again, stages)
    ensures Rehomed(stages, ptype, again, refs) == refs
  {
    CleanHomesStay(stages, after, ptype, homes, again);
    CleanStagesStay(stages, after, ptype, homes);
    CleanReferencesStay(stages, ptype, homes, refs);
  }

  lemma CleanTypesHaveNoDuplicates(stages: Stages, ptype: string, homes: Homes)
    requires OnePerName(stages, ptype, homes)
    ensures Duplicates(stages, ptype) == {}
  {
    forall id ensures !Duplicate(stages, ptype, id) {
      if Duplicate(stages, ptype, id) {
        var older: Id :| older < id && OfType(stages, ptype, older) && Meaning(stages, older) == Meaning(stages, id);
        var c :| c in homes && homes[c] == id;
        var d :| d in homes && homes[d] == older;
        CanonicalNamesStay(c);
        CanonicalNamesStay(d);
        assert false;
      }
    }
    SameSet(Duplicates(stages, ptype), {});
  }

  /** A second clean-up goes through, whatever refers to the stages by then, and changes nothing. */
  lemma SecondRunChangesNothing(
    before: Stages, between: Stages, after: Stages, oh: Homes, lh: Homes,
    between2: Stages, after2: Stages, oh2: Homes, lh2: Homes, opportunities: References, leads: References)
    requires CleanedUp(before, between, after, oh, lh) && CleanedUp(after, between2, after2, oh2, lh2)
    ensures !Refused(opportunities, Duplicates(after, LEAD))
    ensures after2 == after && AllExist(oh2, after) && AllExist(lh2, between2)
    ensures Rehomed(after, OPPORTUNITY, oh2, opportunities) == opportunities
    ensures LeadsAfter(after, between2, lh2, leads) == leads
  {
    OneStagePerNameAndType(before, between, after, oh, lh);
    CleanTypesHaveNoDuplicates(after, LEAD, lh);
    CleanTypesHaveNoDuplicates(after, OPPORTUNITY, oh);
    CleanStaysClean(after, between2, OPPORTUNITY, oh, oh2, opportunities);
    SameMap(Nulled(leads, {}), leads);
    CleanStaysClean(between2, after2, LEAD, lh, lh2, leads);
  }
}
