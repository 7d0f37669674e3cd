/**
 * The `updateProfile` server action (src/app/actions/profile.ts): validate the submitted
 * form, split the skill and interest lists, and merge the result over the stored user.
 */
module ProfileAction {
  import opened Wrappers
  import opened Text
  import opened Types
  import Db

  /** The form as submitted: `formData.get` yields `None` for a field that is not there. */
  datatype ProfileForm = ProfileForm(
    id: Option<string>,
    name: Option<string>,
    headline: Option<string>,
    skills: Option<string>,
    interests: Option<string>,
    availability: Option<string>)

  /** The fields once the schema has accepted them. */
  datatype ProfileFields = ProfileFields(
    id: string,
    name: string,
    headline: string,
    skills: string,
    interests: string,
    availability: string)

  const NameTooShort := "Full name must be at least 2 characters."
  const HeadlineTooShort := "Headline is too short."
  /** Zod's own message for a string field that received `null`. */
  const NotAString := "Expected string, received null"
  const UpdateFailed := "Failed to update profile."
  const SuccessMessage := "success"

  /** Every field is present, the name is at least 2 and the headline at least 3 UTF-16 units long. */
  predicate Acceptable(form: ProfileForm)
  {
    && form.id.Some?
    && form.name.Some? && Utf16Length(form.name.value) >= 2
    && form.headline.Some? && Utf16Length(form.headline.value) >= 3
    && form.skills.Some?
    && form.interests.Some?
    && form.availability.Some?
  }

  /**
   * `profileSchema.safeParse` followed by `error.errors[0]?.message`: the fields are checked
   * in the schema's order (id, name, headline, skills, interests, availability) and the
   * message of the first failing one is reported.
   */
  function ValidateProfile(form: ProfileForm): (r: Result<ProfileFields, string>)
    ensures r.Success? <==> Acceptable(form)
    ensures r.Success? ==> r.value == ProfileFields(form.id.value, form.name.value,
      form.headline.value, form.skills.value, form.interests.value, form.availability.value)
    ensures form.id.Some? && form.name.Some? && Utf16Length(form.name.value) < 2 ==> r == Failure(NameTooShort)
    ensures (&& form.id.Some? && form.name.Some? && Utf16Length(form.name.value) >= 2
             && form.headline.Some? && Utf16Length(form.headline.value) < 3)
            ==> r == Failure(HeadlineTooShort)
    ensures r.Failure? ==> r.error in {NotAString, NameTooShort, HeadlineTooShort}
    ensures (&& r.Failure?
             && !(form.id.Some? && form.name.Some? && Utf16Length(form.name.value) < 2)
             && !(&& form.id.Some? && form.name.Some? && Utf16Length(form.name.value) >= 2
                  && form.headline.Some? && Utf16Length(form.headline.value) < 3))
            ==> r == Failure(NotAString)
  {
    if form.id.None? then Failure(NotAString)
    else if form.name.None? then Failure(NotAString)
    else if Utf16Length(form.name.value) < 2 then Failure(NameTooShort)
    else if form.headline.None? then Failure(NotAString)
    else if Utf16Length(form.headline.value) < 3 then Failure(HeadlineTooShort)
    else if form.skills.None? || form.interests.None? || form.availability.None? then Failure(NotAString)
    else Success(ProfileFields(form.id.value, form.name.value, form.headline.value,
                               form.skills.value, form.interests.value, form.availability.value))
  }

  /** The patch handed to `updateUser`: exactly name, headline, skills, interests and availability. */
  function ProfilePatch(f: ProfileFields): (p: Types.UserPatch)
    ensures p.name == Some(f.name) && p.headline == Some(f.headline) && p.availability == Some(f.availability)
    ensures p.skills == Some(SplitTrim(f.skills, ',')) && p.interests == Some(SplitTrim(f.interests, ','))
    ensures p.id.None? && p.avatar.None? && p.aiHint.None? && p.email.None?
    ensures p.password.None? && p.projects.None?
  {
    UserPatch(
      id := None,
      name := Some(f.name),
      avatar := None,
      aiHint := None,
      headline := Some(f.headline),
      email := None,
      password := None,
      skills := Some(SplitTrim(f.skills, ',')),
      interests := Some(SplitTrim(f.interests, ',')),
      availability := Some(f.availability),
      projects := None)
  }

  /**
   * Merging the profile patch sets the five edited fields, splits skills and interests into
   * one trimmed entry per comma-separated piece (empty pieces kept), and leaves the id,
   * avatar, image hint, email, password and project list of the stored user as they were.
   */
  lemma ProfilePatchEffect(u: User, f: ProfileFields)
    ensures var m := Db.Merge(u, ProfilePatch(f));
      && m.name == f.name && m.headline == f.headline && m.availability == f.availability
      && |m.skills| == Count(f.skills, ',') + 1
      && (forall i :: 0 <= i < |m.skills| ==> m.skills[i] == Trim(Split(f.skills, ',')[i]))
      && |m.interests| == Count(f.interests, ',') + 1
      && (forall i :: 0 <= i < |m.interests| ==> m.interests[i] == Trim(Split(f.interests, ',')[i]))
      && m.id == u.id && m.avatar == u.avatar && m.aiHint == u.aiHint && m.email == u.email
      && m.password == u.password && m.projects == u.projects
  {
  }

  /**
   * Saving the form as the profile page fills it in (`user.skills.join(', ')`) stores the
   * same skills back when there is at least one and none holds a comma or outer white space,
   * but stores one empty skill for a user who has none.
   */
  lemma ResavedSkills(u: User, f: ProfileFields)
    requires f.skills == JoinWith(u.skills, ", ")
    ensures u.skills == [] ==> Db.Merge(u, ProfilePatch(f)).skills == [""]
    ensures (&& |u.skills| > 0
             && forall i :: 0 <= i < |u.skills| ==> CleanItem(u.skills[i], ','))
            ==> Db.Merge(u, ProfilePatch(f)).skills == u.skills
  {
    if u.skills == [] {
      SplitTrimJoinEmpty(',');
    } else if forall i :: 0 <= i < |u.skills| ==> CleanItem(u.skills[i], ',') {
      SplitTrimJoin(u.skills, ',');
    }
  }

  /**
   * `updateProfile`. A rejected form returns the first validation message and leaves the
   * store alone. An accepted form merges the profile patch over the first user holding the
   * id; an unknown id returns "User not found" and changes nothing. `refreshError` is the
   * outcome of `revalidatePath('/profile')`, which runs inside the same `try` after the
   * update: when it throws, its message (or the fixed fallback when that is empty) is
   * returned although the update has happened.
   */
  method UpdateProfile(store: Db.Store, form: ProfileForm, refreshError: Option<string>)
    returns (message: string)
    modifies store
    ensures store.projects == old(store.projects) && store.events == old(store.events)
    ensures !Acceptable(form) ==>
      message == ValidateProfile(form).error && store.users == old(store.users)
    ensures Acceptable(form) ==>
      var f := ValidateProfile(form).value;
      match Db.IndexOfUser(old(store.users), f.id)
      case None =>
        message == Db.UserNotFound && store.users == old(store.users)
      case Some(i) =>
        && store.users == old(store.users)[i := Db.Merge(old(store.users)[i], ProfilePatch(f))]
        && message == (if refreshError.None? then SuccessMessage
                       else if refreshError.value != [] then refreshError.value
                       else UpdateFailed)
  {
    var validated := ValidateProfile(form);
    if validated.Failure? {
      return validated.error;
    }
    var f := validated.value;
    var updated := store.UpdateUser(f.id, ProfilePatch(f));
    if updated.Failure? {
      message := if updated.error != [] then updated.error else UpdateFailed;
      return;
    }
    if refreshError.Some? {
      message := if refreshError.value != [] then refreshError.value else UpdateFailed;
      return;
    }
    message := SuccessMessage;
  }
}
