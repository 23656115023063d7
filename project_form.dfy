/**
 * The admin project form's state and its event handlers: each handler maps
 * the current form state to the next one.
 */
module ProjectForm {
  import opened Common
  import opened JsStrings

  /** A skill as the form lists it: a name and an optional icon URL. */
  datatype SkillDraft = SkillDraft(name: string, iconUrl: Option<string>)

  /** The project being edited (`ProjectData`). */
  datatype ProjectData = ProjectData(
    id: Option<string>,
    title: string,
    description: string,
    imageUrl: string,
    githubUrl: Option<string>,
    liveUrl: Option<string>,
    featured: bool,
    order: int,
    skills: seq<SkillDraft>)

  /** The component's state: the record and the two skill input boxes. */
  datatype FormState = FormState(formData: ProjectData, skillInput: string, skillIconInput: string)

  /** The record a new project starts from. */
  const DefaultProject: ProjectData :=
    ProjectData(None, "", "", "", Some(""), Some(""), false, 0, [])

  /** The form opens on the given project, or on the default one, with empty skill inputs. */
  function InitialState(initialData: Option<ProjectData>): (st: FormState)
    ensures st.skillInput == "" && st.skillIconInput == ""
    ensures initialData.Some? ==> st.formData == initialData.value
    ensures initialData.None? ==>
      && st.formData.id.None?
      && st.formData.title == "" && st.formData.description == "" && st.formData.imageUrl == ""
      && !st.formData.featured && st.formData.order == 0 && st.formData.skills == []
  {
    FormState(if initialData.Some? then initialData.value else DefaultProject, "", "")
  }

  /** The switch sets `featured` and nothing else. */
  function SwitchChange(st: FormState, checked: bool): (r: FormState)
    ensures r.formData.featured == checked
    ensures r.formData.(featured := st.formData.featured) == st.formData
    ensures r.skillInput == st.skillInput && r.skillIconInput == st.skillIconInput
  {
    st.(formData := st.formData.(featured := checked))
  }

  /** The entry Add appends: the trimmed name, and the trimmed icon URL unless that is empty. */
  function NewDraft(skillInput: string, skillIconInput: string): (d: SkillDraft)
    ensures d.name == Trim(skillInput)
    ensures d.iconUrl.None? <==> Trim(skillIconInput) == ""
    ensures d.iconUrl.Some? ==> d.iconUrl.value == Trim(skillIconInput)
  {
    var icon := Trim(skillIconInput);
    SkillDraft(Trim(skillInput), if icon != "" then Some(icon) else None)
  }

  /**
   * The Add button: when the skill name trims to something, appends the new
   * entry and clears both inputs; otherwise nothing changes.
   */
  function AddSkill(st: FormState): (r: FormState)
    ensures AllWhitespace(st.skillInput) ==> r == st
    ensures !AllWhitespace(st.skillInput) ==>
      && r.formData.skills == st.formData.skills + [NewDraft(st.skillInput, st.skillIconInput)]
      && r.formData.(skills := st.formData.skills) == st.formData
      && r.skillInput == "" && r.skillIconInput == ""
  {
    TrimEmptyIffAllWhitespace(st.skillInput);
    if Trim(st.skillInput) != "" then
      FormState(
        st.formData.(skills := st.formData.skills + [NewDraft(st.skillInput, st.skillIconInput)]),
        "", "")
    else st
  }

  /** The entries whose name differs from `name`, in their original order. */
  function WithoutName(skills: seq<SkillDraft>, name: string): (r: seq<SkillDraft>)
    ensures forall d :: d in r <==> d in skills && d.name != name
    ensures |r| <= |skills|
  {
    if skills == [] then []
    else if skills[0].name != name then [skills[0]] + WithoutName(skills[1..], name)
    else WithoutName(skills[1..], name)
  }

  /** The remove button of an entry: drops every entry with that name. */
  function RemoveSkill(st: FormState, name: string): (r: FormState)
    ensures r.formData.skills == WithoutName(st.formData.skills, name)
    ensures r.formData.(skills := st.formData.skills) == st.formData
    ensures r.skillInput == st.skillInput && r.skillIconInput == st.skillIconInput
  {
    st.(formData := st.formData.(skills := WithoutName(st.formData.skills, name)))
  }

  /** How many entries carry `name`. */
  function CountNamed(skills: seq<SkillDraft>, name: string): (n: nat)
    ensures n <= |skills|
    ensures n == 0 <==> forall d :: d in skills ==> d.name != name
  {
    if skills == [] then 0
    else (if skills[0].name == name then 1 else 0) + CountNamed(skills[1..], name)
  }

  /** Removal keeps order: it distributes over concatenation. */
  lemma {:induction false} WithoutNameAppend(a: seq<SkillDraft>, b: seq<SkillDraft>, name: string)
    ensures WithoutName(a + b, name) == WithoutName(a, name) + WithoutName(b, name)
  {
    if a != [] {
      assert (a + b)[1..] == a[1..] + b;
      WithoutNameAppend(a[1..], b, name);
    } else {
      assert a + b == b;
    }
  }

  /** Removing a name no entry carries changes nothing. */
  lemma {:induction false} WithoutAbsentName(skills: seq<SkillDraft>, name: string)
    requires forall d :: d in skills ==> d.name != name
    ensures WithoutName(skills, name) == skills
  {
    if skills != [] {
      assert skills[0] in skills;
      assert forall d :: d in skills[1..] ==> d in skills;
      WithoutAbsentName(skills[1..], name);
      assert skills == [skills[0]] + skills[1..];
    }
  }

  /** Removing the same name twice is removing it once. */
  lemma RemoveSkillIdempotent(st: FormState, name: string)
    ensures RemoveSkill(RemoveSkill(st, name), name) == RemoveSkill(st, name)
  {
    WithoutAbsentName(WithoutName(st.formData.skills, name), name);
  }

  /** Removing an absent name leaves the form state as it was. */
  lemma RemoveAbsentSkill(st: FormState, name: string)
    requires forall d :: d in st.formData.skills ==> d.name != name
    ensures RemoveSkill(st, name) == st
  {
    WithoutAbsentName(st.formData.skills, name);
  }

  lemma {:induction false} CountNamedAppend(a: seq<SkillDraft>, b: seq<SkillDraft>, name: string)
    ensures CountNamed(a + b, name) == CountNamed(a, name) + CountNamed(b, name)
  {
    if a != [] {
      assert (a + b)[1..] == a[1..] + b;
      CountNamedAppend(a[1..], b, name);
    } else {
      assert a + b == b;
    }
  }

  /**
   * Add does not deduplicate: a successful add raises the count of the added
   * name by exactly one, so adding a name already listed gives two entries.
   */
  lemma AddSkillCountsUp(st: FormState)
    requires !AllWhitespace(st.skillInput)
    ensures CountNamed(AddSkill(st).formData.skills, Trim(st.skillInput))
         == CountNamed(st.formData.skills, Trim(st.skillInput)) + 1
  {
    var d := NewDraft(st.skillInput, st.skillIconInput);
    CountNamedAppend(st.formData.skills, [d], d.name);
    assert [d][1..] == [];
  }

  /** Removing the name just added takes out the new entry and every earlier entry of that name. */
  lemma RemoveUndoesAdd(st: FormState)
    requires !AllWhitespace(st.skillInput)
    ensures RemoveSkill(AddSkill(st), Trim(st.skillInput)).formData.skills
         == WithoutName(st.formData.skills, Trim(st.skillInput))
  {
    var d := NewDraft(st.skillInput, st.skillIconInput);
    WithoutNameAppend(st.formData.skills, [d], d.name);
    assert [d][1..] == [];
  }
}
