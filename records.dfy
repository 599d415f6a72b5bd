/**
 * The records the local-mode storage service keeps. Field names follow the
 * application's objects; a field the application may leave out is an Option.
 */
module Records {
  import opened Wrappers

  /** The JSON text of a blob the service stores without looking inside (phase data, metadata). */
  type Json = string

  /** An entry of the local user list, password included. */
  datatype UserRecord = UserRecord(name: string, email: string, password: string, role: string)

  /** The record stored as the current user and returned by login and signup: no password. */
  datatype PublicUser = PublicUser(name: string, email: string, role: string)

  /** The public view of a stored user: name, address and role, without the password. */
  function PublicOf(u: UserRecord): (p: PublicUser)
    ensures p.name == u.name && p.email == u.email && p.role == u.role
  {
    PublicUser(u.name, u.email, u.role)
  }

  /**
   * A project as the application holds it. `phaseData` is the backend's column
   * name, which an object may still carry; `phases` is the application's own.
   */
  datatype Project = Project(
    id: Option<string>,
    name: Option<string>,
    description: Option<string>,
    status: Option<string>,
    phases: Option<Json>,
    phaseData: Option<Json>,
    tags: Option<seq<string>>,
    progress: Option<int>,
    createdAt: Option<string>,
    updatedAt: Option<string>)

  /** A badge; `id` is chosen by the caller and is the key that de-duplicates awards. */
  datatype Badge = Badge(
    id: string,
    title: string,
    desc: string,
    icon: string,
    xp: int,
    category: Option<string>,
    metadata: Option<Json>,
    earnedAt: Option<string>)

  /** The object stored under `ALH_data`: the badge list and whatever other fields it holds. */
  datatype AppData = AppData(badges: Option<seq<Badge>>, others: map<string, Json>)

  /** What an operation throws. */
  datatype Error =
    | UserNotFound     // login: no user has the address
    | WrongPassword    // login: the user exists, the password differs
    | EmailTaken       // signup: the address is already registered
    | BadgesNotAList   // saveBadge: `data.badges.some` on an object without a badge list

  /** JavaScript truthiness of an optional string: the falsy ones are a missing value and "". */
  predicate Truthy(v: Option<string>)
    ensures Truthy(v) <==> v != None && v != Some("")
  {
    v.Some? && v.value != ""
  }

  /**
   * `v || fallback` for an optional string: the value when it is truthy, the
   * fallback otherwise, so never empty when the fallback is not.
   */
  function Or(v: Option<string>, fallback: string): (r: string)
    ensures Truthy(v) ==> r == v.value
    ensures !Truthy(v) ==> r == fallback
    ensures fallback != "" ==> r != ""
  {
    if Truthy(v) then v.value else fallback
  }
}
