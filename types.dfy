/** The records the application stores and exchanges (src/lib/types.ts). */
module Types {
  import opened Wrappers

  /** A project listed on a user's profile, with the user's role in it. */
  datatype ProfileProject = ProfileProject(name: string, role: string)

  /** A registered student. `password` is optional: `None` is a record without the key. */
  datatype User = User(
    id: string,
    name: string,
    avatar: string,
    aiHint: string,
    headline: string,
    email: string,
    password: Option<string>,
    skills: seq<string>,
    interests: seq<string>,
    availability: string,
    projects: seq<ProfileProject>)

  datatype Project = Project(
    id: string,
    title: string,
    description: string,
    skills: seq<string>,
    image: string,
    aiHint: string)

  /** An event; `date` is kept as the text it was given, never parsed. */
  datatype Event = Event(
    id: string,
    title: string,
    date: string,
    location: string,
    description: string,
    image: string,
    aiHint: string)

  /** A `Partial<User>`: every key may be absent (`None`). */
  datatype UserPatch = UserPatch(
    id: Option<string>,
    name: Option<string>,
    avatar: Option<string>,
    aiHint: Option<string>,
    headline: Option<string>,
    email: Option<string>,
    password: Option<string>,
    skills: Option<seq<string>>,
    interests: Option<seq<string>>,
    availability: Option<string>,
    projects: Option<seq<ProfileProject>>)
}
