/** The skills editor (src/components/dashboard/SkillsSection.js): local
    lists of technical skills (name and level) and soft skills (plain
    strings), edited one step at a time and handed to the save callback as a
    whole. */
module SkillsSection {
  import opened Js
  import opened Strings
  import opened Seqs

  /** A technical skill; `id` is the timestamp given when it was added here
      (`None` for the draft). */
  datatype TechSkill = TechSkill(name: string, level: int, id: Option<nat>)

  /** What `saveSkills` hands to the save callback. */
  datatype SkillsPayload = SkillsPayload(technical: seq<TechSkill>, soft: seq<string>)

  /** The draft every add starts again from. */
  const EmptyDraft: TechSkill := TechSkill("", 50, None)

  /** The list after `addTechSkill`: the draft, untrimmed, with the timestamp
      as its id, appended when its name is not blank. */
  function AddTech(skills: seq<TechSkill>, draft: TechSkill, now: nat): (r: seq<TechSkill>)
    ensures AllSpace(draft.name) ==> r == skills
    ensures !AllSpace(draft.name) ==> |r| == |skills| + 1 && r[..|skills|] == skills &&
                                      r[|skills|] == draft.(id := Some(now))
  {
    TrimEmptyIff(draft.name);
    if Trim(draft.name) != "" then skills + [draft.(id := Some(now))] else skills
  }

  /** The list after `addSoftSkill`: the trimmed input, appended when it is
      not blank and not already present. */
  function AddSoft(skills: seq<string>, input: string): (r: seq<string>)
    ensures Trim(input) == "" || Trim(input) in skills ==> r == skills
    ensures Trim(input) != "" && Trim(input) !in skills ==> r == skills + [Trim(input)]
  {
    var t := Trim(input);
    if t != "" && t !in skills then skills + [t] else skills
  }

  /** Adding a soft skill keeps a duplicate-free list duplicate-free, and
      every entry it adds is trimmed and not blank. */
  lemma AddSoftKeepsDistinct(skills: seq<string>, input: string)
    requires Distinct(skills)
    ensures Distinct(AddSoft(skills, input))
    ensures forall s :: s in AddSoft(skills, input) && s !in skills ==> s == Trim(input) && s != "" && IsTrimmed(s)
  {
  }

  /** The list after `removeSoftSkill(x)`: every entry equal to `x` left out. */
  function RemoveSoft(skills: seq<string>, x: string): (r: seq<string>)
    ensures IsSubsequence(r, skills)
    ensures x !in r
    ensures forall s :: s in skills && s != x ==> s in r
    ensures forall s :: multiset(r)[s] == if s == x then 0 else multiset(skills)[s]
  {
    var keep := (s: string) => s != x;
    FilterCounts(keep, skills);
    Filter(keep, skills)
  }

  /** Removing keeps a duplicate-free list duplicate-free, and removing an
      absent entry changes nothing. */
  lemma RemoveSoftFacts(skills: seq<string>, x: string)
    ensures Distinct(skills) ==> Distinct(RemoveSoft(skills, x))
    ensures x !in skills ==> RemoveSoft(skills, x) == skills
  {
    if Distinct(skills) {
      SubsequenceDistinct(RemoveSoft(skills, x), skills);
    }
    if x !in skills {
      FilterAll((s: string) => s != x, skills);
    }
  }

  class SkillsEditor {
    var techSkills: seq<TechSkill>
    var softSkills: seq<string>
    /** The technical skill being typed in. */
    var newTechSkill: TechSkill
    /** The soft skill being typed in. */
    var newSoftSkill: string

    /** The editor over a section's data; `data.technical || []` and
        `data.soft || []`, with `None` for a missing list. */
    constructor (technical: Option<seq<TechSkill>>, soft: Option<seq<string>>)
      ensures techSkills == (if technical.Some? then technical.value else [])
      ensures softSkills == (if soft.Some? then soft.value else [])
      ensures newTechSkill == EmptyDraft && newSoftSkill == ""
    {
      techSkills := if technical.Some? then technical.value else [];
      softSkills := if soft.Some? then soft.value else [];
      newTechSkill := EmptyDraft;
      newSoftSkill := "";
    }

    /** The effect that reloads both lists whenever the section's data changes;
        the drafts are kept. */
    method Reload(technical: Option<seq<TechSkill>>, soft: Option<seq<string>>)
      modifies this
      ensures techSkills == (if technical.Some? then technical.value else [])
      ensures softSkills == (if soft.Some? then soft.value else [])
      ensures newTechSkill == old(newTechSkill) && newSoftSkill == old(newSoftSkill)
    {
      techSkills := if technical.Some? then technical.value else [];
      softSkills := if soft.Some? then soft.value else [];
    }

    /** Typing into the technical-skill draft: its name, or its level
        (`parseInt` of the slider value). */
    method EditTechDraft(name: string, level: int)
      modifies this
      ensures newTechSkill == old(newTechSkill).(name := name, level := level)
      ensures techSkills == old(techSkills) && softSkills == old(softSkills) && newSoftSkill == old(newSoftSkill)
    {
      newTechSkill := newTechSkill.(name := name, level := level);
    }

    /** Typing into the soft-skill draft. */
    method EditSoftDraft(text: string)
      modifies this
      ensures newSoftSkill == text
      ensures techSkills == old(techSkills) && softSkills == old(softSkills) && newTechSkill == old(newTechSkill)
    {
      newSoftSkill := text;
    }

    /** `addTechSkill()`, where `now` is `Date.now()`: a blank name changes
        nothing; otherwise the draft is appended and reset to the empty draft. */
    method AddTechSkill(now: nat)
      modifies this
      ensures techSkills == AddTech(old(techSkills), old(newTechSkill), now)
      ensures newTechSkill == if AllSpace(old(newTechSkill.name)) then old(newTechSkill) else EmptyDraft
      ensures softSkills == old(softSkills) && newSoftSkill == old(newSoftSkill)
    {
      TrimEmptyIff(newTechSkill.name);
      if Trim(newTechSkill.name) != "" {
        techSkills := techSkills + [newTechSkill.(id := Some(now))];
        newTechSkill := EmptyDraft;
      }
    }

    /** `removeTechSkill(index)`: exactly that position goes. */
    method RemoveTechSkill(index: int)
      modifies this
      ensures techSkills == WithoutIndex(old(techSkills), index)
      ensures softSkills == old(softSkills) && newTechSkill == old(newTechSkill) && newSoftSkill == old(newSoftSkill)
    {
      techSkills := WithoutIndex(techSkills, index);
    }

    /** `updateTechSkillLevel(index, level)`: only that skill's level changes.
        A position outside the list reads `undefined`, and setting its level
        throws, which `threw` reports. */
    method UpdateTechSkillLevel(index: int, level: int) returns (threw: bool)
      modifies this
      ensures threw <==> !(0 <= index < |old(techSkills)|)
      ensures !threw ==> techSkills == old(techSkills)[index := old(techSkills)[index].(level := level)]
      ensures threw ==> techSkills == old(techSkills)
      ensures softSkills == old(softSkills) && newTechSkill == old(newTechSkill) && newSoftSkill == old(newSoftSkill)
    {
      if 0 <= index < |techSkills| {
        techSkills := techSkills[index := techSkills[index].(level := level)];
        threw := false;
      } else {
        threw := true;
      }
    }

    /** `addSoftSkill()`: the trimmed draft is appended unless blank or present;
        the draft is cleared only when it is appended. */
    method AddSoftSkill()
      modifies this
      ensures softSkills == AddSoft(old(softSkills), old(newSoftSkill))
      ensures newSoftSkill == if softSkills == old(softSkills) then old(newSoftSkill) else ""
      ensures techSkills == old(techSkills) && newTechSkill == old(newTechSkill)
    {
      var t := Trim(newSoftSkill);
      if t != "" && t !in softSkills {
        softSkills := softSkills + [t];
        newSoftSkill := "";
      }
    }

    /** `removeSoftSkill(x)`. */
    method RemoveSoftSkill(x: string)
      modifies this
      ensures softSkills == RemoveSoft(old(softSkills), x)
      ensures techSkills == old(techSkills) && newTechSkill == old(newTechSkill) && newSoftSkill == old(newSoftSkill)
    {
      softSkills := RemoveSoft(softSkills, x);
    }

    /** `saveSkills()`: exactly the two current lists. */
    method SaveSkills() returns (payload: SkillsPayload)
      ensures payload == SkillsPayload(techSkills, softSkills)
    {
      payload := SkillsPayload(techSkills, softSkills);
    }
  }
}
