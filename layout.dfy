/**
 * The layout of the browser key-value store: the keys the service uses, the
 * decoded value each key holds, and what a read returns for a missing key.
 */
module Layout {
  import opened Wrappers
  import opened Records

  const AppPrefix := "ALH_"
  const UsersKey := "ALH_users"
  const CurrentUserKey := "ALH_user"
  const DataKey := "ALH_data"
  const ProjectsPrefix := "ALH_projects_"
  const ThemeKey := "ALH_theme"
  const FontSizeKey := "ALH_fontSize"
  const NotificationsKey := "ALH_notifications"
  const LanguageKey := "ALH_language"
  const MigrationCompletedKey := "ALH_migration_completed"
  const MigrationDateKey := "ALH_migration_date"

  /** Keys whose value is a raw string rather than JSON. */
  const TextKeys: set<string> :=
    {ThemeKey, FontSizeKey, NotificationsKey, LanguageKey, MigrationCompletedKey, MigrationDateKey}

  /** A decoded stored value: what `JSON.parse` (or, for the text keys, `getItem`) gives back. */
  datatype Value =
    | UserList(users: seq<UserRecord>)
    | CurrentUser(user: PublicUser)
    | ProjectList(projects: seq<Project>)
    | BadgeData(data: AppData)
    | Text(text: string)

  /** The shape the service writes under `key`. */
  predicate Shaped(key: string, v: Value) {
    && (key == UsersKey ==> v.UserList?)
    && (key == CurrentUserKey ==> v.CurrentUser?)
    && (key == DataKey ==> v.BadgeData?)
    && (ProjectsPrefix <= key ==> v.ProjectList?)
    && (key in TextKeys ==> v.Text?)
  }

  /** Every key the service reads holds the shape it writes there. */
  predicate WellShaped(items: map<string, Value>) {
    forall k :: k in items ==> Shaped(k, items[k])
  }

  /** Raw text stored under a text key is well shaped: no text key looks like a project-list key. */
  lemma TextKeyShaped(key: string, t: string)
    requires key in TextKeys
    ensures Shaped(key, Text(t))
  {
    assert key[4] != ProjectsPrefix[4];
  }

  /** A user list is the shape of `ALH_users`. */
  lemma UsersShaped(users: seq<UserRecord>)
    ensures Shaped(UsersKey, UserList(users))
  {
    assert UsersKey[4] != ProjectsPrefix[4];
  }

  /** A public record is the shape of `ALH_user`. */
  lemma CurrentUserShaped(user: PublicUser)
    ensures Shaped(CurrentUserKey, CurrentUser(user))
  {
    assert CurrentUserKey[4] != ProjectsPrefix[4];
  }

  /** An application-data object is the shape of `ALH_data`. */
  lemma AppDataShaped(data: AppData)
    ensures Shaped(DataKey, BadgeData(data))
  {
    assert DataKey[4] != ProjectsPrefix[4];
  }

  /** A project list is the shape of the current user's projects key, which is no text key. */
  lemma ProjectsShaped(current: Option<PublicUser>, projects: seq<Project>)
    ensures Shaped(ProjectsKey(current), ProjectList(projects))
  {
    var key := ProjectsKey(current);
    assert key[4] == 'p';
    assert forall t :: t in TextKeys ==> t[4] != 'p';
  }

  /** Writing a well-shaped value keeps the store well shaped. */
  lemma UpdateShaped(items: map<string, Value>, key: string, v: Value)
    requires WellShaped(items) && Shaped(key, v)
    ensures WellShaped(items[key := v])
  {
  }

  /** `ALH_projects_${user.email}`, where a missing current user makes the email `undefined`. */
  function ProjectsKey(current: Option<PublicUser>): (key: string)
    ensures ProjectsPrefix <= key
    ensures current.None? ==> key == "ALH_projects_undefined"
    ensures current.Some? ==> key[|ProjectsPrefix|..] == current.value.email
  {
    ProjectsPrefix + (if current.Some? then current.value.email else "undefined")
  }

  /** `JSON.parse(getItem('ALH_users') || '[]')` */
  function StoredUsers(items: map<string, Value>): (users: seq<UserRecord>)
    requires WellShaped(items)
    ensures UsersKey in items ==> items[UsersKey] == UserList(users)
    ensures UsersKey !in items ==> users == []
  {
    if UsersKey in items then items[UsersKey].users else []
  }

  /** `JSON.parse(getItem('ALH_user') || 'null')` */
  function StoredCurrentUser(items: map<string, Value>): (user: Option<PublicUser>)
    requires WellShaped(items)
    ensures user.Some? <==> CurrentUserKey in items
    ensures user.Some? ==> items[CurrentUserKey] == CurrentUser(user.value)
  {
    if CurrentUserKey in items then Some(items[CurrentUserKey].user) else None
  }

  /** `JSON.parse(getItem(key) || '[]')` for a project-list key. */
  function StoredProjects(items: map<string, Value>, key: string): (projects: seq<Project>)
    requires WellShaped(items) && ProjectsPrefix <= key
    ensures key in items ==> items[key] == ProjectList(projects)
    ensures key !in items ==> projects == []
  {
    if key in items then items[key].projects else []
  }

  /** `JSON.parse(getItem('ALH_data') || '{"badges":[]}')` */
  function StoredAppData(items: map<string, Value>): (data: AppData)
    requires WellShaped(items)
    ensures DataKey in items ==> items[DataKey] == BadgeData(data)
    ensures DataKey !in items ==> data == AppData(Some([]), map[])
  {
    if DataKey in items then items[DataKey].data else AppData(Some([]), map[])
  }

  /** `getItem(key)` for a raw-text key: the string, or null. */
  function StoredText(items: map<string, Value>, key: string): (text: Option<string>)
    requires WellShaped(items) && key in TextKeys
    ensures text.Some? <==> key in items
    ensures text.Some? ==> items[key] == Text(text.value)
  {
    if key in items then Some(items[key].text) else None
  }
}
