/** The stage clean-up script: duplicates remapped and deleted, missing stages made, all normalised. */
module StageCleanup {
  import opened Wrappers
  import opened StageNames

  datatype Config = Config(order: nat, color: string, probability: nat, isWon: bool, isLost: bool)

  /** `STAGE_CONFIG`. */
  function ConfigOf(c: Canonical): Config {
    match c
    case Discovery => Config(1, "#06b6d4", 10, false, false)
    case Proposal => Config(2, "#818cf8", 30, false, false)
    case Negotiation => Config(3, "#f59e0b", 50, false, false)
    case Scoping => Config(4, "#10b981", 70, false, false)
    case Stalling => Config(5, "#ef4444", 20, false, false)
    case Won => Config(6, "#22c55e", 100, true, false)
    case Lost => Config(7, "#6b7280", 0, false, true)
  }

  datatype Stage = Stage(name: string, pipelineType: string, isActive: bool, config: Config)

  /** The stage every clean-up leaves for a canonical name. */
  function Standard(ptype: string, c: Canonical): Stage {
    Stage(NameOf(c), ptype, true, ConfigOf(c))
  }

  /** The seven standard stages, column by column. */
  lemma StandardStages(ptype: string)
    ensures Standard(ptype, Discovery) == Stage("Discovery", ptype, true, Config(1, "#06b6d4", 10, false, false))
    ensures Standard(ptype, Proposal) == Stage("Proposal", ptype, true, Config(2, "#818cf8", 30, false, false))
    ensures Standard(ptype, Negotiation) == Stage("Negotiation", ptype, true, Config(3, "#f59e0b", 50, false, false))
    ensures Standard(ptype, Scoping) == Stage("Scoping", ptype, true, Config(4, "#10b981", 70, false, false))
    ensures Standard(ptype, Stalling) == Stage("Stalling", ptype, true, Config(5, "#ef4444", 20, false, false))
    ensures Standard(ptype, Won) == Stage("Won", ptype, true, Config(6, "#22c55e", 100, true, false))
    ensures Standard(ptype, Lost) == Stage("Lost", ptype, true, Config(7, "#6b7280", 0, false, true))
  {
  }

  type Stages = map<Id, Stage>

  const OPPORTUNITY := "opportunity"
  const LEAD := "lead"

  /** Which stage each opportunity or lead is in. */
  type References = map<Id, Option<Id>>

  predicate OfType(stages: Stages, ptype: string, id: Id) {
    id in stages && stages[id].pipelineType == ptype
  }

  function Meaning(stages: Stages, id: Id): Canonical
    requires id in stages
  {
    CanonicalOf(stages[id].name)
  }

  /** `homes` names, for each canonical stage of the type, the one that is kept or made for it. */
  type Homes = map<Canonical, Id>

  ghost predicate Complete(homes: Homes) {
    && (forall c :: c in homes)
    && (forall c, d :: c in homes && d in homes && homes[c] == homes[d] ==> c == d)
  }

  /** An existing stage is home only to its own meaning, and is then the oldest to have it. */
  ghost predicate KeepsOldest(stages: Stages, ptype: string, homes: Homes) {
    && (forall c :: c in homes && homes[c] in stages ==>
          OfType(stages, ptype, homes[c]) && Meaning(stages, homes[c]) == c)
    && (forall id :: OfType(stages, ptype, id) ==>
          && Meaning(stages, id) in homes
          && OfType(stages, ptype, homes[Meaning(stages, id)])
          && Meaning(stages, homes[Meaning(stages, id)]) == Meaning(stages, id)
          && homes[Meaning(stages, id)] <= id)
  }

  /** One simultaneous substitution: every reference to a stage of the type goes to its home. */
  ghost function Rehomed(stages: Stages, ptype: string, homes: Homes, refs: References): References
    requires KeepsOldest(stages, ptype, homes)
  {
    map r | r in refs ::
      if refs[r].Some? && OfType(stages, ptype, refs[r].value) then Some(homes[Meaning(stages, refs[r].value)])
      else refs[r]
  }

  /** What cleaning one pipeline type does to the stages. */
  ghost predicate Cleaned(stages: Stages, after: Stages, ptype: string, homes: Homes) {
    && Complete(homes) && KeepsOldest(stages, ptype, homes)
    && (forall c :: c in homes ==> homes[c] in after && after[homes[c]] == Standard(ptype, c))
    && (forall id :: OfType(after, ptype, id) ==> exists c :: c in homes && homes[c] == id)
    && (forall id :: id in stages && stages[id].pipelineType != ptype ==> id in after && after[id] == stages[id])
    && (forall id :: id in after && after[id].pipelineType != ptype ==> id in stages && after[id] == stages[id])
  }

  /** The stages of one type as the script reads them, by ascending id. */
  ghost predicate Selects(stages: Stages, ptype: string, ids: seq<Id>) {
    && (forall i, j :: 0 <= i < j < |ids| ==> ids[i] < ids[j])
    && (forall id :: id in ids <==> OfType(stages, ptype, id))
  }

  lemma Least(ids: set<Id>) returns (least: Id)
    requires ids != {}
    ensures least in ids && forall id :: id in ids ==> least <= id
    decreases ids
  {
    var first := Member(ids);
    var below := set k | k in ids && k < first;
    least := first;
    if below != {} {
      assert first !in below && below < ids;
      least := Least(below);
    }
    forall id | id in ids ensures least <= id {
      if id < first { assert id in below; }
    }
  }

  /** SELECT ... ORDER BY id. */
  method SelectByType(stages: Stages, ptype: string) returns (ids: seq<Id>)
    ensures Selects(stages, ptype, ids)
  {
    var rest := set id | id in stages && stages[id].pipelineType == ptype;
    ids := [];
    while rest != {}
      invariant forall i, j :: 0 <= i < j < |ids| ==> ids[i] < ids[j]
      invariant forall id, next :: id in ids && next in rest ==> id < next
      invariant forall id :: OfType(stages, ptype, id) <==> id in ids || id in rest
      decreases rest
    {
      ghost var least := Least(rest);
      var next :| next in rest && forall id :: id in rest ==> next <= id;
      assert forall i :: 0 <= i < |ids| ==> ids[i] in ids;
      ids, rest := ids + [next], rest - {next};
    }
  }

  /** The canonical map and the remap the script builds while it reads the stages in order. */
  ghost predicate Plans(stages: Stages, ids: seq<Id>, canonicalIds: Homes, remap: map<Id, Id>)
    requires forall id :: id in ids ==> id in stages
  {
    && (forall c :: c in canonicalIds ==> canonicalIds[c] in ids && Meaning(stages, canonicalIds[c]) == c)
    && (forall id :: id in ids ==> Meaning(stages, id) in canonicalIds && canonicalIds[Meaning(stages, id)] <= id)
    && (forall id :: id in remap <==> id in ids && canonicalIds[Meaning(stages, id)] != id)
    && (forall id :: id in remap ==> remap[id] == canonicalIds[Meaning(stages, id)])
  }

  lemma PlanGrows(stages: Stages, ids: seq<Id>, id: Id, canonicalIds: Homes, remap: map<Id, Id>)
    requires forall k :: k in ids ==> k in stages && k < id
    requires id in stages && Plans(stages, ids, canonicalIds, remap)
    ensures var c := Meaning(stages, id);
      if c in canonicalIds then Plans(stages, ids + [id], canonicalIds, remap[id := canonicalIds[c]])
      else Plans(stages, ids + [id], canonicalIds[c := id], remap)
  {
    var next := ids + [id];
    assert forall k :: k in next <==> k in ids || k == id;
  }

  method PlanRemap(stages: Stages, ids: seq<Id>) returns (canonicalIds: Homes, remap: map<Id, Id>)
    requires forall i, j :: 0 <= i < j < |ids| ==> ids[i] < ids[j]
    requires forall id :: id in ids ==> id in stages
    ensures Plans(stages, ids, canonicalIds, remap)
  {
    canonicalIds, remap := map[], map[];
    for i := 0 to |ids|
      invariant Plans(stages, ids[..i], canonicalIds, remap)
    {
      var id := ids[i];
      assert ids[..i + 1] == ids[..i] + [id];
      PlanGrows(stages, ids[..i], id, canonicalIds, remap);
      var canonical := Meaning(stages, id);
      if canonical !in canonicalIds {
        canonicalIds := canonicalIds[canonical := id];
      } else {
        remap := remap[id := canonicalIds[canonical]];
      }
    }
    assert ids[..|ids|] == ids;
  }

  /** No target of the remap is itself remapped, so the UPDATEs cannot follow one another. */
  lemma TargetsAreNoSources(stages: Stages, ids: seq<Id>, canonicalIds: Homes, remap: map<Id, Id>)
    requires forall id :: id in ids ==> id in stages
    requires Plans(stages, ids, canonicalIds, remap)
    ensures forall id :: id in remap ==> remap[id] !in remap
  {
  }

  function Redirected(ref: Option<Id>, remap: map<Id, Id>, sources: set<Id>): Option<Id>
    requires sources <= remap.Keys
  {
    if ref.Some? && ref.value in sources then Some(remap[ref.value]) else ref
  }

  /** The sequence of UPDATEs is one simultaneous substitution, in whatever order they run. */
  method UpdateReferences(refs: References, remap: map<Id, Id>) returns (updated: References)
    requires forall id :: id in remap ==> remap[id] !in remap
    ensures updated.Keys == refs.Keys
    ensures forall r :: r in refs ==> updated[r] == Redirected(refs[r], remap, remap.Keys)
  {
    var order := Rows(remap.Keys);
    updated := refs;
    ghost var done: set<Id> := {};
    for i := 0 to |order|
      invariant updated.Keys == refs.Keys
      invariant done <= remap.Keys && forall k :: k in done <==> k in order[..i]
      invariant forall r :: r in refs ==> updated[r] == Redirected(refs[r], remap, done)
    {
      var oldId := order[i];
      assert forall k :: k in order[..i + 1] <==> k in order[..i] || k == oldId;
      updated := map r | r in updated ::
        if updated[r] == Some(oldId) then Some(remap[oldId]) else updated[r];
      done := done + {oldId};
    }
    assert order[..|order|] == order;
  }

  lemma AllIsAll(c: Canonical)
    ensures c in ALL
  {
    assert ALL[0] == Discovery && ALL[1] == Proposal && ALL[2] == Negotiation && ALL[3] == Scoping;
    assert ALL[4] == Stalling && ALL[5] == Won && ALL[6] == Lost;
  }

  /** `table` with the stages that `homes` adds to `canonicalIds`, all of them new rows. */
  ghost predicate Supplied(table: Stages, after: Stages, ptype: string, canonicalIds: Homes, homes: Homes) {
    && (forall c :: c in canonicalIds ==> c in homes && homes[c] == canonicalIds[c])
    && (forall c :: c in homes && c !in canonicalIds ==>
          homes[c] !in table && homes[c] in after && after[homes[c]] == Standard(ptype, c))
    && (forall c, d :: c in homes && d in homes && c !in canonicalIds && homes[c] == homes[d] ==> c == d)
    && (forall id :: id in table ==> id in after && after[id] == table[id])
    && (forall id :: id in after && id !in table ==> exists c :: c in homes && c !in canonicalIds && homes[c] == id)
  }

  /** The INSERTs of missing canonical stages; ids come from a sequence. */
  method InsertMissing(table: Stages, nextId: Id, ptype: string, canonicalIds: Homes)
    returns (after: Stages, newNextId: Id, homes: Homes)
    requires forall id :: id in table ==> id < nextId
    requires forall c :: c in canonicalIds ==> canonicalIds[c] in table
    ensures Supplied(table, after, ptype, canonicalIds, homes) && forall c :: c in homes
    ensures nextId <= newNextId && forall id :: id in after ==> id < newNextId
    ensures forall id :: id in after && id !in table ==> nextId <= id
    ensures (forall c :: c in canonicalIds) ==> newNextId == nextId
  {
    after, newNextId, homes := table, nextId, canonicalIds;
    for i := 0 to |ALL|
      invariant Supplied(table, after, ptype, canonicalIds, homes)
      invariant forall c :: c in homes <==> c in canonicalIds || c in ALL[..i]
      invariant nextId <= newNextId && forall id :: id in after ==> id < newNextId
      invariant forall id :: id in after && id !in table ==> nextId <= id
      invariant (forall c :: c in canonicalIds) ==> newNextId == nextId
    {
      var c := ALL[i];
      assert forall d :: d in ALL[..i + 1] <==> d in ALL[..i] || d == c;
      if c !in canonicalIds {
        EachOnce(i);
        after, homes := after[newNextId := Standard(ptype, c)], homes[c := newNextId];
        newNextId := newNextId + 1;
      }
    }
    forall c: Canonical ensures c in homes { AllIsAll(c); assert ALL[..|ALL|] == ALL; }
  }

  lemma EachOnce(i: nat)
    requires i < |ALL|
    ensures ALL[i] !in ALL[..i]
  {
  }

  ghost predicate Normalized(table: Stages, after: Stages, ptype: string, canonicalIds: Homes) {
    && after.Keys == table.Keys
    && (forall c :: c in canonicalIds ==>
          canonicalIds[c] in after && after[canonicalIds[c]] == Standard(ptype, c))
    && (forall id :: id in table && (forall c :: c in canonicalIds ==> canonicalIds[c] != id) ==> after[id] == table[id])
  }

  /** `homes` are stages of the type, no two of them the same. */
  ghost predicate Separate(table: Stages, ptype: string, homes: Homes) {
    && (forall c :: c in homes ==> OfType(table, ptype, homes[c]) && homes[c] != 0)
    && (forall c, d :: c in homes && d in homes && homes[c] == homes[d] ==> c == d)
  }

  /** The rows of the canonical names in `done` have had their UPDATE to `goal`. */
  ghost predicate UpdatedFor(
    table: Stages, after: Stages, homes: Homes, goal: Canonical -> Stage, done: seq<Canonical>)
  {
    && after.Keys == table.Keys
    && (forall id :: id in table ==> after[id].pipelineType == table[id].pipelineType)
    && (forall c :: c in homes && c in done ==> homes[c] in after && after[homes[c]] == goal(c))
    && (forall id :: id in table && (forall c :: c in homes ==> homes[c] != id) ==> after[id] == table[id])
  }

  lemma UpdatesOneMore(
    table: Stages, after: Stages, ptype: string, homes: Homes, goal: Canonical -> Stage, done: seq<Canonical>, c: Canonical)
    requires Separate(table, ptype, homes) && UpdatedFor(table, after, homes, goal, done) && c in homes
    requires goal(c).pipelineType == ptype
    ensures homes[c] in after
    ensures UpdatedFor(table, after[homes[c] := goal(c)], homes, goal, done + [c])
  {
    assert OfType(table, ptype, homes[c]);
    var next := after[homes[c] := goal(c)];
    forall d | d in homes && d in done + [c] ensures homes[d] in next && next[homes[d]] == goal(d) {
      if d != c { assert d in done && homes[d] != homes[c]; }
    }
  }

  /** The UPDATEs that give every kept stage its canonical name, order, colour and flags. */
  method Normalize(table: Stages, ptype: string, canonicalIds: Homes) returns (after: Stages)
    requires Separate(table, ptype, canonicalIds)
    ensures Normalized(table, after, ptype, canonicalIds)
  {
    ghost var goal := c => Standard(ptype, c);
    after := table;
    for i := 0 to |ALL|
      invariant UpdatedFor(table, after, canonicalIds, goal, ALL[..i])
    {
      var c := ALL[i];
      assert ALL[..i + 1] == ALL[..i] + [c];
      if c in canonicalIds && canonicalIds[c] != 0 {
        UpdatesOneMore(table, after, ptype, canonicalIds, goal, ALL[..i], c);
        var id := canonicalIds[c];
        after := after[id := after[id].(name := NameOf(c), config := ConfigOf(c), isActive := true)];
      }
    }
    forall c | c in canonicalIds ensures c in ALL[..|ALL|] { AllIsAll(c); }
  }

  /** Everything the steps of one turn establish, before it is put together. */
  ghost predicate Steps(
    stages: Stages, ids: seq<Id>, canonicalIds: Homes, remap: map<Id, Id>,
    supplied: Stages, after: Stages, ptype: string, homes: Homes)
  {
    && Selects(stages, ptype, ids) && Plans(stages, ids, canonicalIds, remap)
    && Supplied(stages - remap.Keys, supplied, ptype, canonicalIds, homes) && (forall c :: c in homes)
    && Normalized(supplied, after, ptype, canonicalIds)
    && (forall id :: id in supplied && id !in stages - remap.Keys ==> id !in stages)
  }

  lemma StepsKeepOldest(
    stages: Stages, ids: seq<Id>, canonicalIds: Homes, remap: map<Id, Id>,
    supplied: Stages, after: Stages, ptype: string, homes: Homes)
    requires Steps(stages, ids, canonicalIds, remap, supplied, after, ptype, homes)
    ensures Complete(homes) && KeepsOldest(stages, ptype, homes)
    ensures forall id :: id in remap <==> OfType(stages, ptype, id) && homes[Meaning(stages, id)] != id
    ensures forall id :: id in remap ==> remap[id] == homes[Meaning(stages, id)]
  {
    assert forall c :: c in canonicalIds ==> homes[c] == canonicalIds[c] && canonicalIds[c] in stages - remap.Keys;
  }

  lemma StepsFillHomes(
    stages: Stages, ids: seq<Id>, canonicalIds: Homes, remap: map<Id, Id>,
    supplied: Stages, after: Stages, ptype: string, homes: Homes)
    requires Steps(stages, ids, canonicalIds, remap, supplied, after, ptype, homes)
    ensures forall c :: c in homes ==> homes[c] in after && after[homes[c]] == Standard(ptype, c)
    ensures forall id :: OfType(after, ptype, id) ==> exists c :: c in homes && homes[c] == id
  {
    var table := stages - remap.Keys;
    forall c | c in homes && c !in canonicalIds ensures after[homes[c]] == supplied[homes[c]] {
      assert forall d :: d in canonicalIds ==> canonicalIds[d] in table;
    }
    forall id | id in table && stages[id].pipelineType == ptype
      ensures Meaning(stages, id) in canonicalIds && canonicalIds[Meaning(stages, id)] == id
    {
      assert OfType(stages, ptype, id);
    }
  }

  lemma StepsLeaveOthers(
    stages: Stages, ids: seq<Id>, canonicalIds: Homes, remap: map<Id, Id>,
    supplied: Stages, after: Stages, ptype: string, homes: Homes)
    requires Steps(stages, ids, canonicalIds, remap, supplied, after, ptype, homes)
    ensures forall id :: id in stages && stages[id].pipelineType != ptype ==> id in after && after[id] == stages[id]
    ensures forall id :: id in after && after[id].pipelineType != ptype ==> id in stages && after[id] == stages[id]
  {
    forall id | id in stages && stages[id].pipelineType != ptype ensures id in after && after[id] == stages[id] {
      assert id in stages - remap.Keys && supplied[id] == stages[id];
    }
    forall id | id in after && after[id].pipelineType != ptype ensures id in stages && after[id] == stages[id] {
      assert after[id] == supplied[id];
    }
  }

  /** The script works from the rows it read at the start; the type's rows are still those. */
  ghost predicate SameOfType(all: Stages, stages: Stages, ptype: string) {
    forall id :: (OfType(all, ptype, id) <==> OfType(stages, ptype, id))
      && (OfType(all, ptype, id) && OfType(stages, ptype, id) ==> all[id] == stages[id])
  }

  ghost predicate AllExist(homes: Homes, stages: Stages) {
    forall c :: c in homes ==> homes[c] in stages
  }

  lemma SamePlan(all: Stages, stages: Stages, ptype: string, ids: seq<Id>, canonicalIds: Homes, remap: map<Id, Id>)
    requires SameOfType(all, stages, ptype) && Selects(all, ptype, ids) && Plans(all, ids, canonicalIds, remap)
    ensures Selects(stages, ptype, ids) && Plans(stages, ids, canonicalIds, remap)
    ensures forall c :: c in canonicalIds ==>
      canonicalIds[c] in stages - remap.Keys && OfType(stages - remap.Keys, ptype, canonicalIds[c])
  {
    forall id | id in ids ensures OfType(all, ptype, id) && OfType(stages, ptype, id) && all[id] == stages[id] {}
  }

  /** The rows of one type that the script does away with: an older one has the same meaning. */
  ghost predicate Duplicate(stages: Stages, ptype: string, id: Id) {
    && OfType(stages, ptype, id)
    && exists older: Id :: older < id && OfType(stages, ptype, older) && Meaning(stages, older) == Meaning(stages, id)
  }

  ghost function Duplicates(stages: Stages, ptype: string): set<Id> {
    set id | id in stages && Duplicate(stages, ptype, id)
  }

  lemma DuplicateIffNotHome(stages: Stages, ptype: string, homes: Homes, id: Id)
    requires KeepsOldest(stages, ptype, homes)
    ensures Duplicate(stages, ptype, id) <==> OfType(stages, ptype, id) && homes[Meaning(stages, id)] != id
  {
    if OfType(stages, ptype, id) && homes[Meaning(stages, id)] != id {
      assert homes[Meaning(stages, id)] < id;
    }
  }

  /** The canonical map and the remap of one type. */
  method PlanType(all: Stages, ghost stages: Stages, ptype: string)
    returns (ghost ids: seq<Id>, canonicalIds: Homes, remap: map<Id, Id>)
    requires SameOfType(all, stages, ptype)
    ensures Selects(stages, ptype, ids) && Plans(stages, ids, canonicalIds, remap)
    ensures forall c :: c in canonicalIds ==>
      canonicalIds[c] in stages - remap.Keys && OfType(stages - remap.Keys, ptype, canonicalIds[c])
    ensures forall id :: id in remap ==> remap[id] !in remap
  {
    var selected := SelectByType(all, ptype);
    ids := selected;
    canonicalIds, remap := PlanRemap(all, selected);
    SamePlan(all, stages, ptype, ids, canonicalIds, remap);
    TargetsAreNoSources(stages, ids, canonicalIds, remap);
  }

  /** The INSERTs and the normalising UPDATEs of one type, once its duplicates are deleted. */
  method Refill(
    ghost stages: Stages, ghost ids: seq<Id>, canonicalIds: Homes, remap: map<Id, Id>, table: Stages, nextId: Id, ptype: string)
    returns (after: Stages, newNextId: Id, homes: Homes)
    requires nextId > 0 && (forall id :: id in stages ==> 0 < id < nextId) && table == stages - remap.Keys
    requires Selects(stages, ptype, ids) && Plans(stages, ids, canonicalIds, remap)
    requires forall c :: c in canonicalIds ==> canonicalIds[c] in table && OfType(table, ptype, canonicalIds[c])
    ensures Cleaned(stages, after, ptype, homes)
    ensures nextId <= newNextId && forall id :: id in after ==> 0 < id < newNextId
    ensures AllExist(homes, stages) ==> newNextId == nextId
    ensures forall c :: c in homes && homes[c] !in stages ==> nextId <= homes[c]
    ensures forall id :: id in remap <==> Duplicate(stages, ptype, id)
    ensures forall id :: id in remap ==> OfType(stages, ptype, id) && remap[id] == homes[Meaning(stages, id)]
  {
    var supplied;
    supplied, newNextId, homes := InsertMissing(table, nextId, ptype, canonicalIds);
    after := Normalize(supplied, ptype, canonicalIds);
    StepsKeepOldest(stages, ids, canonicalIds, remap, supplied, after, ptype, homes);
    StepsFillHomes(stages, ids, canonicalIds, remap, supplied, after, ptype, homes);
    StepsLeaveOthers(stages, ids, canonicalIds, remap, supplied, after, ptype, homes);
    assert AllExist(homes, stages) ==> forall c :: c in canonicalIds;
    forall id ensures id in remap <==> Duplicate(stages, ptype, id) { DuplicateIffNotHome(stages, ptype, homes, id); }
  }

  /** The remap is known before the homes of missing stages are. */
  lemma RemapsDuplicates(stages: Stages, ptype: string, ids: seq<Id>, canonicalIds: Homes, remap: map<Id, Id>)
    requires Selects(stages, ptype, ids) && Plans(stages, ids, canonicalIds, remap)
    ensures remap.Keys == Duplicates(stages, ptype)
  {
    forall id ensures id in remap.Keys <==> id in Duplicates(stages, ptype) {
      if id in ids { assert OfType(stages, ptype, id); }
      if OfType(stages, ptype, id) { assert OfType(stages, ptype, canonicalIds[Meaning(stages, id)]); }
    }
    SameSet(remap.Keys, Duplicates(stages, ptype));
  }

  // ---- The foreign keys ----

  /** Every reference is to a stage that exists. */
  ghost predicate Intact(refs: References, stages: Stages) {
    forall r :: r in refs && refs[r].Some? ==> refs[r].value in stages
  }

  /** `opportunities.pipeline_stage_id` is NOT NULL and refuses the deletion of a stage in use. */
  predicate Refused(opportunities: References, gone: set<Id>) {
    exists o :: o in opportunities && opportunities[o].Some? && opportunities[o].value in gone
  }

  lemma RefusedIff(stages: Stages, ptype: string, opportunities: References)
    ensures Refused(opportunities, Duplicates(stages, ptype)) <==>
      exists o :: o in opportunities && opportunities[o].Some? && Duplicate(stages, ptype, opportunities[o].value)
  {
  }

  /** `leads.pipeline_stage_id` is declared ON DELETE SET NULL. */
  function Nulled(leads: References, gone: set<Id>): References {
    map l | l in leads :: if leads[l].Some? && leads[l].value in gone then None else leads[l]
  }

  /** The UPDATEs of a type's own table leave no reference to a duplicate, so its rows never object. */
  lemma OwnReferencesAreFree(stages: Stages, ptype: string, remap: map<Id, Id>, refs: References, updated: References)
    requires remap.Keys == Duplicates(stages, ptype) && forall id :: id in remap ==> remap[id] !in remap
    requires updated.Keys == refs.Keys
    requires forall r :: r in refs ==> updated[r] == Redirected(refs[r], remap, remap.Keys)
    ensures !Refused(updated, remap.Keys) && Nulled(updated, remap.Keys) == updated
  {
    SameMap(Nulled(updated, remap.Keys), updated);
  }

  /** And they are the simultaneous substitution. */
  lemma UpdatesRehome(stages: Stages, ptype: string, homes: Homes, remap: map<Id, Id>, refs: References, updated: References)
    requires KeepsOldest(stages, ptype, homes)
    requires forall id :: id in remap <==> Duplicate(stages, ptype, id)
    requires forall id :: id in remap ==> OfType(stages, ptype, id) && remap[id] == homes[Meaning(stages, id)]
    requires updated.Keys == refs.Keys
    requires forall r :: r in refs ==> updated[r] == Redirected(refs[r], remap, remap.Keys)
    ensures updated == Rehomed(stages, ptype, homes, refs)
  {
    forall r | r in refs ensures updated[r] == Rehomed(stages, ptype, homes, refs)[r] {
      if refs[r].Some? { DuplicateIffNotHome(stages, ptype, homes, refs[r].value); }
    }
    SameMap(updated, Rehomed(stages, ptype, homes, refs));
  }

  /** A stage is deleted exactly when it is a duplicate of the type being cleaned. */
  lemma DeletedIffDuplicate(stages: Stages, after: Stages, ptype: string, homes: Homes, id: Id)
    requires Cleaned(stages, after, ptype, homes) && id in stages
    requires forall c :: c in homes && homes[c] !in stages ==> id < homes[c]
    ensures id !in after <==> Duplicate(stages, ptype, id)
  {
    DuplicateIffNotHome(stages, ptype, homes, id);
    if OfType(stages, ptype, id) && id in after {
      assert OfType(after, ptype, id);
    }
  }

  /** What a turn does to the two tables, given that the DELETE goes through. */
  ghost predicate Turned(
    stages: Stages, ptype: string, homes: Homes, opportunities: References, leads: References,
    opportunitiesAfter: References, leadsAfter: References)
    requires KeepsOldest(stages, ptype, homes)
  {
    if ptype == OPPORTUNITY then
      && opportunitiesAfter == Rehomed(stages, ptype, homes, opportunities)
      && leadsAfter == Nulled(leads, Duplicates(stages, ptype))
    else
      opportunitiesAfter == opportunities && leadsAfter == Rehomed(stages, ptype, homes, leads)
  }

  lemma TurnKeepsReferences(
    stages: Stages, after: Stages, ptype: string, homes: Homes, nextId: Id, opportunities: References, leads: References,
    opportunitiesAfter: References, leadsAfter: References)
    requires Cleaned(stages, after, ptype, homes) && (forall id :: id in stages ==> id < nextId)
    requires forall c :: c in homes && homes[c] !in stages ==> nextId <= homes[c]
    requires Intact(opportunities, stages) && Intact(leads, stages)
    requires Turned(stages, ptype, homes, opportunities, leads, opportunitiesAfter, leadsAfter)
    requires ptype == OPPORTUNITY || !Refused(opportunities, Duplicates(stages, ptype))
    ensures Intact(opportunitiesAfter, after) && Intact(leadsAfter, after)
  {
    forall id | id in stages && id !in Duplicates(stages, ptype) ensures id in after {
      DeletedIffDuplicate(stages, after, ptype, homes, id);
    }
    RehomedIsIntact(stages, after, ptype, homes, opportunities);
    RehomedIsIntact(stages, after, ptype, homes, leads);
  }

  lemma RehomedIsIntact(stages: Stages, after: Stages, ptype: string, homes: Homes, refs: References)
    requires Cleaned(stages, after, ptype, homes) && Intact(refs, stages)
    ensures Intact(Rehomed(stages, ptype, homes, refs), after)
  {
    forall r | r in refs && refs[r].Some? ensures Rehomed(stages, ptype, homes, refs)[r].value in after {
      if OfType(stages, ptype, refs[r].value) { assert homes[Meaning(stages, refs[r].value)] in after; }
    }
  }

  /** The three tables, and the id that the sequence hands out next; it starts at 1. */
  datatype Database = Database(stages: Stages, opportunities: References, leads: References, nextId: Id)
  {
    /** What the schema enforces. */
    ghost predicate Valid() {
      && nextId > 0 && (forall id :: id in stages ==> 0 < id < nextId)
      && Intact(opportunities, stages) && Intact(leads, stages)
      && forall o :: o in opportunities ==> opportunities[o].Some?
    }
  }

  /** One turn of the loop over pipeline types; false when the DELETE raises. */
  method CleanType(all: Stages, db: Database, ptype: string) returns (ok: bool, after: Database, ghost homes: Homes)
    requires db.Valid() && SameOfType(all, db.stages, ptype) && (ptype == OPPORTUNITY || ptype == LEAD)
    ensures ok <==> ptype == OPPORTUNITY || !Refused(db.opportunities, Duplicates(db.stages, ptype))
    ensures !ok ==> after.nextId == db.nextId
    ensures ok ==> after.Valid() && Cleaned(db.stages, after.stages, ptype, homes)
    ensures ok ==> Turned(db.stages, ptype, homes, db.opportunities, db.leads, after.opportunities, after.leads)
    ensures ok && AllExist(homes, db.stages) ==> after.nextId == db.nextId
    ensures ok ==> db.nextId <= after.nextId && forall c :: c in homes && homes[c] !in db.stages ==> db.nextId <= homes[c]
  {
    ghost var ids;
    var canonicalIds, remap;
    ids, canonicalIds, remap := PlanType(all, db.stages, ptype);
    RemapsDuplicates(db.stages, ptype, ids, canonicalIds, remap);
    ok, after, homes := true, db, map[];
    var updated := UpdateReferences(if ptype == OPPORTUNITY then db.opportunities else db.leads, remap);
    after := if ptype == OPPORTUNITY then after.(opportunities := updated) else after.(leads := updated);
    OwnReferencesAreFree(db.stages, ptype, remap, if ptype == OPPORTUNITY then db.opportunities else db.leads, updated);
    if Refused(after.opportunities, remap.Keys) {
      return false, after, homes;
    }
    after := after.(leads := Nulled(after.leads, remap.Keys), stages := db.stages - remap.Keys);
    var stages, nextId, made := Refill(db.stages, ids, canonicalIds, remap, after.stages, db.nextId, ptype);
    homes := made;
    UpdatesRehome(db.stages, ptype, homes, remap, if ptype == OPPORTUNITY then db.opportunities else db.leads, updated);
    TurnKeepsReferences(db.stages, stages, ptype, homes, db.nextId, db.opportunities, db.leads, after.opportunities, after.leads);
    after := after.(stages := stages, nextId := nextId);
  }

  /** Both turns, in one transaction: an error takes back everything but the ids it has drawn. */
  method CleanBoth(db: Database)
    returns (ok: bool, after: Database, ghost between: Stages, ghost opportunityHomes: Homes, ghost leadHomes: Homes)
    requires db.Valid()
    ensures after.Valid() && db.nextId <= after.nextId
    ensures ok <==> forall o :: o in db.opportunities && db.opportunities[o].Some? ==>
      !Duplicate(db.stages, LEAD, db.opportunities[o].value)
    ensures !ok ==> after == db.(nextId := after.nextId)
    ensures ok ==> CleanedUp(db.stages, between, after.stages, opportunityHomes, leadHomes)
    ensures ok ==> after.opportunities == Rehomed(db.stages, OPPORTUNITY, opportunityHomes, db.opportunities)
    ensures ok ==> after.leads == LeadsAfter(db.stages, between, leadHomes, db.leads)
    ensures ok && AllExist(opportunityHomes, db.stages) && AllExist(leadHomes, between) ==> after.nextId == db.nextId
  {
    var first, second;
    ok, first, opportunityHomes := CleanType(db.stages, db, OPPORTUNITY);
    between := first.stages;
    FirstTurnIsSeparate(db.stages, between, opportunityHomes, db.opportunities);
    ok, second, leadHomes := CleanType(db.stages, first, LEAD);
    if ok {
      after := second;
      BothTurns(db.stages, between, second.stages, opportunityHomes, leadHomes, first.nextId,
                first.opportunities, first.leads, second.opportunities, second.leads);
    } else {
      after := db.(nextId := second.nextId);
    }
  }

  class PipelineDatabase {
    var stages: Stages
    var opportunities: References
    var leads: References
    var nextId: Id

    ghost predicate Valid()
      reads this
    {
      Database(stages, opportunities, leads, nextId).Valid()
    }

    /** `main`. */
    method CleanUp() returns (ok: bool, ghost between: Stages, ghost opportunityHomes: Homes, ghost leadHomes: Homes)
      requires Valid()
      modifies this
      ensures Valid() && old(nextId) <= nextId
      ensures ok <==> forall o :: o in old(opportunities) && old(opportunities)[o].Some? ==>
        !Duplicate(old(stages), LEAD, old(opportunities)[o].value)
      ensures !ok ==> stages == old(stages) && opportunities == old(opportunities) && leads == old(leads)
      ensures ok ==> CleanedUp(old(stages), between, stages, opportunityHomes, leadHomes)
      ensures ok ==> opportunities == Rehomed(old(stages), OPPORTUNITY, opportunityHomes, old(opportunities))
      ensures ok ==> leads == LeadsAfter(old(stages), between, leadHomes, old(leads))
      ensures ok && AllExist(opportunityHomes, old(stages)) && AllExist(leadHomes, between) ==> nextId == old(nextId)
    {
      var after;
      ok, after, between, opportunityHomes, leadHomes := CleanBoth(Database(stages, opportunities, leads, nextId));
      stages, opportunities, leads, nextId := after.stages, after.opportunities, after.leads, after.nextId;
    }
  }

  /** A clean-up of both types, as `CleanUp` leaves the stages. */
  ghost predicate CleanedUp(before: Stages, between: Stages, after: Stages, oh: Homes, lh: Homes) {
    && Cleaned(before, between, OPPORTUNITY, oh) && Cleaned(between, after, LEAD, lh)
    && (forall c :: c in lh && lh[c] in before ==> lh[c] in between)
  }

  /** The leads lose the opportunity stages that are deleted, then follow their own remap. */
  ghost function LeadsAfter(before: Stages, between: Stages, lh: Homes, leads: References): References
    requires KeepsOldest(between, LEAD, lh)
  {
    Rehomed(between, LEAD, lh, Nulled(leads, Duplicates(before, OPPORTUNITY)))
  }

  /** The second turn on top of the first. */
  lemma BothTurns(
    before: Stages, between: Stages, after: Stages, oh: Homes, lh: Homes, drawn: Id,
    opps: References, lds: References, opportunities: References, leads: References)
    requires Cleaned(before, between, OPPORTUNITY, oh) && Cleaned(between, after, LEAD, lh)
    requires Turned(between, LEAD, lh, opps, lds, opportunities, leads)
    requires forall id :: id in before ==> id < drawn
    requires forall c :: c in lh && lh[c] !in between ==> drawn <= lh[c]
    ensures CleanedUp(before, between, after, oh, lh)
    ensures opportunities == opps && leads == Rehomed(between, LEAD, lh, lds)
  {
  }

  lemma OtherTypesStay(stages: Stages, after: Stages, ptype: string, other: string, homes: Homes)
    requires Cleaned(stages, after, ptype, homes) && other != ptype
    ensures SameOfType(stages, after, other)
  {
  }

  lemma SameDuplicates(stages: Stages, after: Stages, ptype: string)
    requires SameOfType(stages, after, ptype)
    ensures Duplicates(stages, ptype) == Duplicates(after, ptype)
  {
    forall id ensures id in Duplicates(stages, ptype) <==> id in Duplicates(after, ptype) {
      SameDuplicate(stages, after, ptype, id);
    }
    SameSet(Duplicates(stages, ptype), Duplicates(after, ptype));
  }

  lemma SameDuplicate(stages: Stages, after: Stages, ptype: string, id: Id)
    requires SameOfType(stages, after, ptype)
    ensures Duplicate(stages, ptype, id) <==> Duplicate(after, ptype, id)
  {
    assert OfType(stages, ptype, id) <==> OfType(after, ptype, id);
    assert forall older :: OfType(stages, ptype, older) <==> OfType(after, ptype, older);
  }

  /** The first turn leaves the second one its stages, and the same opportunities to refuse it. */
  lemma FirstTurnIsSeparate(before: Stages, between: Stages, oh: Homes, opportunities: References)
    requires Cleaned(before, between, OPPORTUNITY, oh)
    ensures SameOfType(before, between, LEAD)
    ensures Refused(Rehomed(before, OPPORTUNITY, oh, opportunities), Duplicates(between, LEAD)) <==>
      exists o :: o in opportunities && opportunities[o].Some? && Duplicate(before, LEAD, opportunities[o].value)
  {
    RefusedIff(before, LEAD, opportunities);
    OtherTypesStay(before, between, OPPORTUNITY, LEAD, oh);
    SameDuplicates(before, between, LEAD);
    LeadTurnRefusesIff(before, between, oh, opportunities);
  }

  /** The first turn moves no opportunity onto or off a lead stage, so it does not affect the second DELETE. */
  lemma LeadTurnRefusesIff(before: Stages, between: Stages, oh: Homes, opportunities: References)
    requires Cleaned(before, between, OPPORTUNITY, oh)
    ensures var gone := Duplicates(before, LEAD);
      Refused(Rehomed(before, OPPORTUNITY, oh, opportunities), gone) <==> Refused(opportunities, gone)
  {
    var gone, moved := Duplicates(before, LEAD), Rehomed(before, OPPORTUNITY, oh, opportunities);
    forall o | o in opportunities && opportunities[o].Some?
      ensures opportunities[o].value in gone <==> moved[o].Some? && moved[o].value in gone
    {
      var id := opportunities[o].value;
      if OfType(before, OPPORTUNITY, id) { assert OfType(before, OPPORTUNITY, oh[Meaning(before, id)]); }
    }
    if Refused(opportunities, gone) {
      var o :| o in opportunities && opportunities[o].Some? && opportunities[o].value in gone;
      assert moved[o].Some? && moved[o].value in gone;
    }
    if Refused(moved, gone) {
      var o :| o in moved && moved[o].Some? && moved[o].value in gone;
      assert opportunities[o].Some? && opportunities[o].value in gone;
    }
  }
}
