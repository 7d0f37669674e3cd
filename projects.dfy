/**
 * The `createProject` server action (src/app/actions/projects.ts): validate the form,
 * build the new project record and put it in front of the stored projects.
 */
module ProjectActions {
  import opened Wrappers
  import opened Text
  import opened Types
  import Db

  /** The form as submitted: `None` for a field that is not there. */
  datatype ProjectForm = ProjectForm(title: Option<string>, description: Option<string>, skills: Option<string>)

  /** The fields once the schema has accepted them. */
  datatype ProjectFields = ProjectFields(title: string, description: string, skills: string)

  const InvalidForm := "Invalid form data. Please check your inputs."
  const CreateFailed := "Failed to create project."
  const SuccessMessage := "success"
  const PlaceholderImage := "https://placehold.co/600x400.png"
  const NewProjectHint := "new project"

  /**
   * `projectSchema.safeParse`: each of title, description and skills must be present and at
   * least one UTF-16 unit long, that is, not empty. White space counts: nothing is trimmed.
   */
  function ValidateProject(form: ProjectForm): (r: Option<ProjectFields>)
    ensures r.Some? <==>
      (&& form.title.Some? && form.title.value != []
       && form.description.Some? && form.description.value != []
       && form.skills.Some? && form.skills.value != [])
    ensures r.Some? ==> r.value == ProjectFields(form.title.value, form.description.value, form.skills.value)
  {
    if && form.title.Some? && Utf16Length(form.title.value) >= 1
       && form.description.Some? && Utf16Length(form.description.value) >= 1
       && form.skills.Some? && Utf16Length(form.skills.value) >= 1
    then Some(ProjectFields(form.title.value, form.description.value, form.skills.value))
    else None
  }

  /**
   * The record `createProject` builds: title and description verbatim, the fresh id, the
   * skills as the trimmed comma-separated pieces in order, the placeholder image and the
   * fixed image hint.
   */
  function NewProject(f: ProjectFields, id: string): (p: Project)
    ensures p.id == id && p.title == f.title && p.description == f.description
    ensures |p.skills| == Count(f.skills, ',') + 1
    ensures forall i :: 0 <= i < |p.skills| ==> p.skills[i] == Trim(Split(f.skills, ',')[i])
    ensures p.image == PlaceholderImage && p.aiHint == NewProjectHint
  {
    Project(id, f.title, f.description, SplitTrim(f.skills, ','), PlaceholderImage, NewProjectHint)
  }

  /**
   * A skills field of white space without commas passes validation (it is not empty) and
   * yields a project with a single empty skill.
   */
  lemma BlankSkillsGiveOneEmptySkill(form: ProjectForm, id: string)
    requires form.title.Some? && form.title.value != []
    requires form.description.Some? && form.description.value != []
    requires form.skills.Some? && form.skills.value != [] && AllSpace(form.skills.value)
    ensures ValidateProject(form).Some?
    ensures NewProject(ValidateProject(form).value, id).skills == [[]]
  {
    var s := form.skills.value;
    assert ',' !in s;
    SplitWithoutSeparator(s, ',');
    TrimAllSpace(s);
  }

  /**
   * `createProject`. A rejected form returns the fixed invalid-form message and inserts
   * nothing. An accepted one puts the new project, carrying the given fresh id (the value
   * of `crypto.randomUUID()`), in front of the stored projects. `refreshFailed` says whether
   * `revalidatePath('/projects')` threw: it runs inside the same `try` after the insertion,
   * so the failure message is returned although the project was inserted.
   */
  method CreateProject(store: Db.Store, form: ProjectForm, freshId: string, refreshFailed: bool)
    returns (message: string)
    modifies store
    ensures store.users == old(store.users) && store.events == old(store.events)
    ensures ValidateProject(form).None? ==> message == InvalidForm && store.projects == old(store.projects)
    ensures ValidateProject(form).Some? ==>
      && store.projects == [NewProject(ValidateProject(form).value, freshId)] + old(store.projects)
      && message == (if refreshFailed then CreateFailed else SuccessMessage)
  {
    var validated := ValidateProject(form);
    if validated.None? {
      return InvalidForm;
    }
    var created := store.CreateProject(NewProject(validated.value, freshId));
    message := if refreshFailed then CreateFailed else SuccessMessage;
  }
}
