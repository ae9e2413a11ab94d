/**
 The skills panel (src/components/resume-builder/skills-analyzer.tsx):
 rating each skill's market demand from a fixed table, and suggesting
 in-demand skills the user does not list.
 */
module SkillsAnalyzer {
  import opened Base
  import opened Text

  datatype Demand = High | Medium | Low

  /** The demand table in declaration order; lookups take the first key
      that matches. */
  const DemandTable: seq<(string, Demand)> := [
    ("microsoft office", High),
    ("excel", High),
    ("communication", High),
    ("leadership", High),
    ("project management", High),
    ("accounting", High),
    ("customer service", High),
    ("data analysis", Medium),
    ("marketing", Medium),
    ("sales", Medium),
    ("administration", Medium),
    ("teamwork", Medium),
    ("problem solving", Medium),
    ("time management", Medium)
  ]

  /** How many skills are rated, and how many suggestions are shown. */
  const RatedCount: nat := 8
  const SuggestionCount: nat := 3

  /** The suggestion list for each interface language. */
  function SuggestedSkills(lang: Language): (list: seq<string>)
    ensures |list| == 5
  {
    match lang
    case En => ["Microsoft Office", "Project Management", "Communication", "Leadership", "Problem Solving"]
    case Tp => ["Microsoft Office", "Projek Manejmen", "Toktok Gut", "Lida", "Stretim Hevi"]
  }

  /** Two texts are related when either contains the other. */
  predicate Related(a: string, b: string) {
    Contains(a, b) || Contains(b, a)
  }

  /** The first entry of `table` whose key is related to `skill`, or none. */
  function FirstRelated(table: seq<(string, Demand)>, skill: string): (k: Option<nat>)
    ensures k.Some? ==> k.value < |table| && Related(skill, table[k.value].0)
    ensures k.Some? ==> forall j :: 0 <= j < k.value ==> !Related(skill, table[j].0)
    ensures k.None? <==> forall j :: 0 <= j < |table| ==> !Related(skill, table[j].0)
  {
    if |table| == 0 then None
    else if Related(skill, table[0].0) then Some(0)
    else match FirstRelated(table[1..], skill)
      case None => None
      case Some(k) => Some(k + 1)
  }

  /** `getSkillDemand`: the level of the first table key related to the
      lowercased skill, and low when none is. */
  function GetSkillDemand(skill: string): (d: Demand)
    ensures d == Low <==> forall j :: 0 <= j < |DemandTable| ==> !Related(Lower(skill), DemandTable[j].0)
    ensures d != Low ==> exists j :: 0 <= j < |DemandTable| && Related(Lower(skill), DemandTable[j].0) && DemandTable[j].1 == d
  {
    match FirstRelated(DemandTable, Lower(skill))
    case None => Low
    case Some(k) =>
      NoLowInTable();
      DemandTable[k].1
  }

  /** Every key of the table rates high or medium. */
  lemma NoLowInTable()
    ensures forall j :: 0 <= j < |DemandTable| ==> DemandTable[j].1 != Low
  {
  }

  /** The empty skill is contained in the first key, so it rates high. */
  lemma EmptySkillIsHigh()
    ensures GetSkillDemand("") == High
  {
    assert Lower("") == "";
    assert OccursAt(DemandTable[0].0, "", 0);
    ContainsIff(DemandTable[0].0, "");
  }

  /** A skill that names a key at any position rates at that key's level
      unless an earlier key is related to it: the table order decides. */
  lemma DemandFollowsFirstKey(skill: string, k: nat)
    requires k < |DemandTable| && Related(Lower(skill), DemandTable[k].0)
    requires forall j :: 0 <= j < k ==> !Related(Lower(skill), DemandTable[j].0)
    ensures GetSkillDemand(skill) == DemandTable[k].1
  {
    FirstRelatedIs(DemandTable, Lower(skill), k);
  }

  /** The first related entry is the one before which none is related. */
  lemma FirstRelatedIs(table: seq<(string, Demand)>, skill: string, k: nat)
    requires k < |table| && Related(skill, table[k].0)
    requires forall j :: 0 <= j < k ==> !Related(skill, table[j].0)
    ensures FirstRelated(table, skill) == Some(k)
  {
  }

  /** `analyzedSkills`: the first eight skills, names unchanged, each with
      its demand. */
  function AnalyzedSkills(skills: seq<string>): (rated: seq<(string, Demand)>)
    ensures |rated| == if |skills| < RatedCount then |skills| else RatedCount
    ensures forall i :: 0 <= i < |rated| ==> rated[i] == (skills[i], GetSkillDemand(skills[i]))
  {
    var shown := Take(skills, RatedCount);
    seq(|shown|, i requires 0 <= i < |shown| => (shown[i], GetSkillDemand(shown[i])))
  }

  /** `skills.some(...)`: some user skill is related to the suggestion,
      both lowercased. */
  function Covered(skills: seq<string>, suggested: string): (b: bool)
    ensures b <==> exists j :: 0 <= j < |skills| && Related(Lower(skills[j]), Lower(suggested))
  {
    if |skills| == 0 then false
    else Related(Lower(skills[0]), Lower(suggested)) || Covered(skills[1..], suggested)
  }

  /** The suggestions no user skill covers, as a filter test. */
  function Uncovered(skills: seq<string>): string -> bool {
    s => !Covered(skills, s)
  }

  /** `missingHighDemandSkills`: the first three suggestions that no user
      skill covers, in list order. */
  function MissingSuggestions(suggested: seq<string>, skills: seq<string>): (missing: seq<string>)
    // Three are shown, or every uncovered one when there are fewer.
    ensures var uncovered := Count(Uncovered(skills), suggested);
            |missing| == if uncovered < SuggestionCount then uncovered else SuggestionCount
    ensures IsSubseq(missing, suggested)
    ensures forall i, j :: 0 <= i < |missing| && 0 <= j < |skills| ==> !Related(Lower(skills[j]), Lower(missing[i]))
    // An uncovered suggestion is left out only when three uncovered ones
    // come before it.
    ensures forall k ::
              0 <= k < |suggested| && !Covered(skills, suggested[k]) && Count(Uncovered(skills), suggested[..k]) < SuggestionCount
              ==> suggested[k] in missing
  {
    var p := Uncovered(skills);
    TakeOfFilterIsSubseq(p, suggested, SuggestionCount);
    TakeOfFilterKeepsEarly(p, suggested, SuggestionCount);
    Take(Filter(p, suggested), SuggestionCount)
  }

  /** An empty skill covers every suggestion, so none is shown. */
  lemma EmptySkillHidesSuggestions(suggested: seq<string>, skills: seq<string>, j: nat)
    requires j < |skills| && skills[j] == ""
    ensures MissingSuggestions(suggested, skills) == []
  {
    assert Lower("") == "";
    forall s | s in suggested
      ensures Covered(skills, s)
    {
      assert OccursAt(Lower(s), "", 0);
      ContainsIff(Lower(s), "");
      assert Related(Lower(skills[j]), Lower(s));
    }
    assert |Filter(Uncovered(skills), suggested)| == 0;
  }
}
