# NexusConnect core, modelled in Dafny

NexusConnect is a student project platform built with Next.js. Most of it is user interface
code and calls to a hosted language model. This project models the deterministic logic
underneath it:

- **The in-memory store** (`src/lib/db.ts`), as the class `Db.Store`. It holds three
  sequences: users, projects and events. Users are looked up by id and updated by merging a
  patch over the stored record. Projects and events are put in front of their lists. The
  readers return users without their password.
- **The server actions** that turn a submitted form into a store call:
  - `updateProfile` (`ProfileAction`), `createProject` (`ProjectActions`) and `createEvent`
    (`EventActions`).
  - Each validates its fields as its Zod schema does, builds the record and reports a
    result message. The profile and project actions also split and trim comma-separated
    lists.
- **The local parts of the matchmaking flow** (`Matchmaking`):
  - the `shouldEmphasizeSkill` tool's case-insensitive substring test;
  - the rendering of the prompt template, with its `#each`/`#unless @last` list joins and
    its `#if emphasizeSkill` step.
- **The sidebar** (`SidebarLayout`): the page title derived from the pathname, and the
  exact-match rule for the active navigation entry.

`Text` writes out the JavaScript string operations this logic depends on:

- `trim`, which removes the ECMAScript white-space and line-terminator set;
- `split` on one character, which keeps empty pieces;
- `join`;
- `toLowerCase` on ASCII letters;
- `includes`;
- `replace` with a one-character pattern, which replaces the first occurrence only;
- the UTF-16 length that Zod's `min` compares against.

`Types` holds the record shapes from `src/lib/types.ts`. `Wrappers` holds `Option` and
`Result`.

The following values become parameters:

- the id that `crypto.randomUUID()` would produce;
- the outcome of `revalidatePath`, which runs inside each action's `try` after the store
  write.

A failing refresh therefore reports failure although the write has already happened, and
the model states exactly that. The store itself never throws on a project or event insert.
So "Failed to create project." and "Failed to create event." arise in the model only from
the refresh.

Some behaviour of the code is easy to overlook, and the model keeps it:

- A profile form with a missing field (`formData.get` returns `null`) is rejected with Zod's
  "Expected string, received null" when no earlier field fails its minimum length.
- Empty pieces of a comma-separated list are kept, so "a,,b" gives three skills.
- A skills string of blanks is accepted and gives one empty skill.
- A user with no skills who saves the profile form as the page fills it in ends up with one
  empty skill.
- The page title replaces only the first hyphen.

## Model

| member | source | states |
|---|---|---|
| Db.FindUser | src/lib/db.ts:124-130 | nothing exactly when no stored user has the id; otherwise the first user holding it, password removed |
| Db.IndexOfUser | src/lib/db.ts:140 | `findIndex`: none exactly when the id is absent, otherwise the first index holding the id |
| Db.Redacted | src/lib/db.ts:121 | one record per stored user, in order, each the stored one without password |
| Db.WithoutPassword | src/lib/db.ts:128 | `const { password, ...rest }`: the result has no password and differs from the user in nothing else |
| Db.Merge | src/lib/db.ts:144 | `{ ...user, ...patch }`, field by field: a key present in the patch takes the patch value, an absent key (password included) keeps the stored value |
| Db.MergeEmptyPatch | src/lib/db.ts:144 | spreading a patch with no keys over a user leaves it unchanged |
| Db.MergeIdempotent | src/lib/db.ts:144 | spreading the same patch twice equals spreading it once |
| Db.FindAfterUpdate | src/lib/db.ts:124-146 | after an update that keeps the id, `getUserById` finds the updated record at the same index, equal to what `updateUser` returned |
| Db.Store.constructor | src/lib/db.ts:7-113 | the store starts with the given users, projects and events |
| Db.Store.GetUsers | src/lib/db.ts:119-122 | same length as the store, element i is user i without password, and no record has a password |
| Db.Store.GetUserById | src/lib/db.ts:124-130 | none iff no id matches, else the first match without its password |
| Db.Store.GetCurrentUser | src/lib/db.ts:132-136 | exactly the lookup of id "1" |
| Db.Store.UpdateUser | src/lib/db.ts:138-147 | unknown id: fails with "User not found" and changes nothing. Found: only the first matching slot changes, to the patch merged over it. Length, other users, projects and events are unchanged. Returns the new record without password |
| Db.Store.GetProjects | src/lib/db.ts:151-154 | the stored project list |
| Db.Store.CreateProject | src/lib/db.ts:156-160 | the new list is the project followed by the old list; users and events unchanged; the argument is returned |
| Db.Store.GetEvents | src/lib/db.ts:164-167 | the stored event list |
| Db.Store.CreateEvent | src/lib/db.ts:169-173 | the new list is the event followed by the old list; users and projects unchanged; the argument is returned |
| ProfileAction.ValidateProfile | src/app/actions/profile.ts:7-32 | accepts iff every field is present, the name has at least 2 UTF-16 units and the headline at least 3. Returns the fields unchanged. With the id present, a short name gives "Full name must be at least 2 characters."; with id and a good name present, a short headline gives "Headline is too short."; any other rejection reports Zod's "Expected string, received null" |
| ProfileAction.ProfilePatch | src/app/actions/profile.ts:36-42 | the patch holds exactly name, headline and availability as submitted and skills and interests split on "," and trimmed; id, avatar, image hint, email, password and projects are absent |
| ProfileAction.ProfilePatchEffect | src/app/actions/profile.ts:35-42 | merging the profile patch sets name, headline and availability. Skills and interests become one trimmed entry per comma-separated piece, commas plus one of them, empty pieces kept. Id, avatar, image hint, email, password and projects are unchanged |
| ProfileAction.ResavedSkills | src/app/actions/profile.ts:39 | saving the form as the profile page (profile/client.tsx:145) pre-fills it, skills shown as `join(', ')`, keeps a non-empty list of clean skills but turns no skills into one empty skill |
| ProfileAction.UpdateProfile | src/app/actions/profile.ts:16-50 | a rejected form returns the first validation message and leaves the store alone. An unknown id returns "User not found" with the store unchanged. Otherwise the first matching user is replaced by the merge. Message: "success", or the refresh error's message, or "Failed to update profile." when that message is empty |
| ProjectActions.ValidateProject | src/app/actions/projects.ts:7-24 | accepts iff title, description and skills are present and non-empty, and returns them unchanged |
| ProjectActions.NewProject | src/app/actions/projects.ts:27-33 | title and description verbatim, the fresh id, the placeholder image and "new project". Skills are the comma-separated pieces, trimmed, in order, commas plus one of them |
| ProjectActions.BlankSkillsGiveOneEmptySkill | src/app/actions/projects.ts:30 | a skills field of blanks passes validation and yields exactly one empty skill |
| ProjectActions.CreateProject | src/app/actions/projects.ts:13-41 | rejected: "Invalid form data. Please check your inputs." and nothing inserted. Accepted: the new project is in front of the old list, users and events are unchanged, and the message is "success" or "Failed to create project." when the refresh fails |
| EventActions.ValidateEvent | src/app/actions/events.ts:7-26 | accepts iff title, date, location and description are present and non-empty, and returns them unchanged |
| EventActions.NewEvent | src/app/actions/events.ts:27-34 | the four fields verbatim (the date stays text), the fresh id, the placeholder image and "new event" |
| EventActions.CreateEvent | src/app/actions/events.ts:14-41 | rejected: the invalid-form message and nothing inserted. Accepted: the new event is in front of the old list, users and projects are unchanged, and the message is "success" or "Failed to create event." when the refresh fails |
| Text.Trim | src/app/actions/profile.ts:39 | `trim` returns a piece of its input surrounded only by white space, and the result neither starts nor ends with white space |
| Text.TrimKeepsTrimmed | src/app/actions/profile.ts:39 | a string with no white space at either end is returned unchanged |
| Text.TrimIdempotent | src/app/actions/profile.ts:39 | trimming twice equals trimming once |
| Text.TrimAllSpace | src/app/actions/projects.ts:30 | a string of white space trims to the empty string |
| Text.TrimIgnoresLeadingSpace | src/app/actions/profile.ts:39 | a leading white-space character does not change the trimmed result |
| Text.Split | src/app/actions/profile.ts:39 | `split(',')` yields as many pieces as separators plus one, none containing the separator |
| Text.JoinWith | src/ai/flows/ai-powered-matchmaking.ts:65-66 | `join(', ')` as the profile page (profile/client.tsx:145 and :154) uses it, and the text the `#each`/`#unless @last` block renders (see Matchmaking.EachUnlessLast): a non-empty list's join opens with its first item (no separator in front) |
| Text.JoinSplit | src/app/actions/profile.ts:39 | joining the pieces of a split with the separator restores the input |
| Text.SplitJoin | src/app/actions/profile.ts:39 | splitting the join of a non-empty list of separator-free items gives the items back |
| Text.SplitWithoutSeparator | src/app/actions/projects.ts:30 | a string without the separator splits into itself alone |
| Text.SplitAtFirstSeparator | src/app/actions/profile.ts:39 | the split of `x + sep + y` with sep-free `x` is `x` followed by the split of `y` |
| Text.SplitTrim | src/app/actions/profile.ts:39-40 | `split(',').map(s => s.trim())`: commas plus one entries, entry i being piece i trimmed |
| Text.SplitTrimJoin | src/app/actions/profile.ts:39-40 | a non-empty list joined with ", " (as the profile page pre-fills the form) comes back unchanged when no item contains a comma or outer white space |
| Text.SplitTrimJoinEmpty | src/app/actions/profile.ts:39-40 | the empty list is the exception: its join "" comes back from split and trim as one empty item |
| Text.TrimEach | src/app/actions/profile.ts:39 | `.map(s => s.trim())`: one entry per piece, in order, entry i being piece i trimmed |
| Text.Utf16Length | src/app/actions/profile.ts:9-10 | the length `min` compares lies between the number of code points and twice that |
| Text.Lower | src/ai/flows/ai-powered-matchmaking.ts:55 | same length, each character case folded |
| Text.Includes | src/ai/flows/ai-powered-matchmaking.ts:55 | true iff the needle occurs as a contiguous piece of the haystack |
| Matchmaking.ShouldEmphasizeSkill | src/ai/flows/ai-powered-matchmaking.ts:53-56 | true iff the lower-cased skill occurs as a contiguous piece of the lower-cased project needs |
| Matchmaking.EmphasisIgnoresCase | src/ai/flows/ai-powered-matchmaking.ts:55 | changing the letter case of either argument does not change the answer |
| Matchmaking.EmptySkillAlwaysRelevant | src/ai/flows/ai-powered-matchmaking.ts:55 | the empty skill is relevant to every text |
| Matchmaking.VerbatimSkillRelevant | src/ai/flows/ai-powered-matchmaking.ts:55 | a skill occurring verbatim in the needs is relevant |
| Matchmaking.RustExample | src/ai/flows/ai-powered-matchmaking.ts:55 | "Rust" is not relevant to "We need Figma and React" |
| Matchmaking.FigmaExample | src/ai/flows/ai-powered-matchmaking.ts:55 | "Figma" is relevant to "We need Figma and React" |
| Matchmaking.EachUnlessLast | src/ai/flows/ai-powered-matchmaking.ts:65-66 | the `#each`/`#unless @last` block renders exactly the items joined by ", ": in order, each once, nothing after the last, nothing for no items |
| Matchmaking.PromptHead | src/ai/flows/ai-powered-matchmaking.ts:63-72 | the template has ten lines before the `#if` block |
| Matchmaking.EmphasisBlock | src/ai/flows/ai-powered-matchmaking.ts:73-75 | the `#if` block contributes one line when the skill is present and non-empty, none otherwise |
| Matchmaking.PromptSlots | src/ai/flows/ai-powered-matchmaking.ts:65-67 | the skills and interests lines are their labels followed by the lists joined by ", ". The project needs follow "Project Needs: " verbatim |
| Matchmaking.Step4 | src/ai/flows/ai-powered-matchmaking.ts:74 | step 4 opens with "  4. " and names the skill at both of its slots |
| Matchmaking.PromptLines | src/ai/flows/ai-powered-matchmaking.ts:63-78 | the template writes 14 lines when the skill to emphasize is present and non-empty, 13 otherwise (slot values are not split at their own line breaks) |
| Matchmaking.Prompt | src/ai/flows/ai-powered-matchmaking.ts:63-78 | the lines joined with line breaks; the text opens with the fixed introduction |
| Matchmaking.FixedLinesAreNotStep4 | src/ai/flows/ai-powered-matchmaking.ts:63-78 | none of the lines the template itself writes outside the `#if` block opens step 4, whatever the inputs |
| Matchmaking.StepFourIffEmphasis | src/ai/flows/ai-powered-matchmaking.ts:73-75 | among the lines the template itself writes, a step-4 line is there iff `emphasizeSkill` is present and non-empty; it is then the line after step 3 and names the skill |
| SidebarLayout.LastSegment | src/components/layout/sidebar-layout.tsx:46 | `split("/").pop()` holds no "/" |
| SidebarLayout.LastSegmentAfterLastSlash | src/components/layout/sidebar-layout.tsx:46 | `split("/").pop()` is a suffix of the path containing no "/", preceded by "/" unless it is the whole path |
| SidebarLayout.LastSegmentAt | src/components/layout/sidebar-layout.tsx:46 | the segment is exactly the text after the last "/" |
| SidebarLayout.LastSegmentNoSlash | src/components/layout/sidebar-layout.tsx:46 | a path without "/" is its own last segment |
| SidebarLayout.ReplaceFirst | src/components/layout/sidebar-layout.tsx:46 | `replace("-", " ")`: same length; the first "-" becomes a space, every other character, later hyphens included, is kept |
| SidebarLayout.ReplaceFirstAbsent | src/components/layout/sidebar-layout.tsx:46 | a text without "-" is unchanged |
| SidebarLayout.PageTitle | src/components/layout/sidebar-layout.tsx:46 | the title is never empty |
| SidebarLayout.PageTitleAfterLastSlash | src/components/layout/sidebar-layout.tsx:46 | "Dashboard" when nothing follows the last "/" (root path, trailing slash); otherwise the text after it with its first "-" made a space |
| SidebarLayout.RootTitle | src/components/layout/sidebar-layout.tsx:46 | the path "/" is titled "Dashboard" |
| SidebarLayout.PageTitleNoSlash | src/components/layout/sidebar-layout.tsx:46 | a path with no "/" is titled by the whole path with its first "-" replaced ("Dashboard" if empty) |
| SidebarLayout.TwoHyphensExample | src/components/layout/sidebar-layout.tsx:46 | "/a/b-c-d" is titled "b c-d": the second hyphen stays |
| SidebarLayout.PageOfSegment | src/components/layout/sidebar-layout.tsx:46 | a one-segment path without hyphens, such as every navigation href, is titled by its segment |
| SidebarLayout.HrefsDistinct | src/components/layout/sidebar-layout.tsx:33-40 | the six navigation hrefs are pairwise distinct |
| SidebarLayout.IsActive | src/components/layout/sidebar-layout.tsx:88 | an active entry's href is exactly as long as the pathname, and a page below an href (the href a proper prefix of the pathname) does not activate it |
| SidebarLayout.AtMostOneActive | src/components/layout/sidebar-layout.tsx:88 | for any pathname at most one entry is active, and an entry is active on its own href |

## Left out

- `simulateDelay` and the asynchronous interleaving of store calls: every store call is one
  atomic step.
- The language-model calls (`ai.definePrompt`, `ai.defineFlow`, `ai.generate`, tool
  registration) and the flow's `output!`. The 3-5 suggestion count is only a schema
  description; no code enforces it.
- `src/ai/flows/emphasize-skill-tool.ts` and `src/app/actions/matchmaking.ts` are not part of
  this model. Each is a model call, or a `try` around one, plus a fixed fallback.
- Handlebars HTML escaping of `{{emphasizeSkill}}`; `{{{this}}}` and `{{{projectNeeds}}}`
  are unescaped and modelled as plain insertion. The prompt is modelled line by line. Lines
  holding only a block tag are standalone and vanish; the other whitespace is kept as
  written.
- Text.Lower: folds ASCII letters only; JavaScript's `toLowerCase` also folds other
  alphabets.
- ProfileAction.ValidateProfile: a missing field is reported with Zod's message for `null`
  ("Expected string, received null"). Zod's other issue kinds are not modelled. This covers
  a `File` value from `FormData` and the "Invalid data provided." fallback, which cannot
  occur because every message is non-empty.
- Db.Merge: a patch key present with the value `undefined` is not modelled. A patch field is
  either absent or carries a value.
- Db.Store.GetProjects, Db.Store.GetEvents, Db.Store.GetUsers, Db.Store.GetUserById,
  Db.Store.UpdateUser: the source shares storage with its callers. The project and event
  arrays are returned by reference. The user readers and `updateUser` return shallow copies
  whose `skills`, `interests` and `projects` arrays are those of the stored record. A caller
  could change the store through either. No caller in the source does, and the model
  returns values.
- `console.error` in the three `catch` blocks: logging only.
- Matchmaking.StepFourIffEmphasis: speaks of the lines the template itself writes. Slot
  values are inserted unchanged, so one holding a line break adds lines to the text. For
  example, project needs "x\n  4. do" with no skill to emphasize put a line opening "  4. "
  into the prompt. A statement over the text split at its line breaks would also need the
  long fixed lines shown free of line breaks, which is not done here.
- `crypto.randomUUID` and `revalidatePath` are parameters (the fresh id; the refresh outcome).
- The JSX, toasts, router and the CSS `capitalize` applied to the title in
  `sidebar-layout.tsx`. Icons of the navigation entries are left out of `NavItem`.
- The seed contents of the three arrays: the constructor takes any initial contents.
