/**
 * The local-mode storage service: each operation reads what it needs out of
 * the browser key-value store, computes the new value and writes it back.
 */
module Service {
  import opened Wrappers
  import opened Records
  import opened Layout
  import opened JsArray
  import Accounts
  import Projects
  import Badges
  import Settings
  import Sweep

  /** The browser's `localStorage`: a map from key to decoded value. */
  class KeyValueStore {
    var items: map<string, Value>

    constructor ()
      ensures items == map[]
    {
      items := map[];
    }

    /** `getItem`: the value under `key`, or null. */
    method GetItem(key: string) returns (v: Option<Value>)
      ensures v.Some? <==> key in items
      ensures v.Some? ==> v.value == items[key]
    {
      v := if key in items then Some(items[key]) else None;
    }

    method SetItem(key: string, v: Value)
      modifies this
      ensures items == old(items)[key := v]
    {
      items := items[key := v];
    }

    method RemoveItem(key: string)
      modifies this
      ensures items == old(items) - {key}
    {
      items := items - {key};
    }

    /** `Object.keys(localStorage)`, as a set: the sweep does not depend on their order. */
    method Keys() returns (keys: set<string>)
      ensures keys == items.Keys
    {
      keys := items.Keys;
    }
  }

  class StorageService {
    const store: KeyValueStore

    constructor (store: KeyValueStore)
      requires WellShaped(store.items)
      ensures this.store == store
      ensures Valid()
    {
      this.store := store;
    }

    /** The store holds, under every key the service reads, the shape the service writes there. */
    predicate Valid()
      reads store
    {
      WellShaped(store.items)
    }

    method ReadUsers() returns (users: seq<UserRecord>)
      requires Valid()
      ensures users == StoredUsers(store.items)
    {
      var raw := store.GetItem(UsersKey);
      users := if raw.Some? then raw.value.users else [];
    }

    /** `getCurrentUser`: the stored public record, or null when nobody is signed in. */
    method GetCurrentUser() returns (user: Option<PublicUser>)
      requires Valid()
      ensures user == StoredCurrentUser(store.items)
    {
      var raw := store.GetItem(CurrentUserKey);
      user := if raw.Some? then Some(raw.value.user) else None;
    }

    /**
     * `login`: fails, writing nothing, when no user has the normalised address
     * or the password differs; otherwise stores and returns the public record.
     */
    method Login(email: string, password: string) returns (r: Result<PublicUser, Error>)
      requires Valid()
      modifies store
      ensures Valid()
      ensures r == Accounts.Login(old(StoredUsers(store.items)), email, password)
      ensures r.Failure? ==> store.items == old(store.items)
      ensures r.Success? ==> store.items == old(store.items)[CurrentUserKey := CurrentUser(r.value)]
    {
      var users := ReadUsers();
      r := Accounts.Login(users, email, password);
      if r.Success? {
        CurrentUserShaped(r.value);
        UpdateShaped(store.items, CurrentUserKey, CurrentUser(r.value));
        store.SetItem(CurrentUserKey, CurrentUser(r.value));
      }
    }

    /**
     * `signup`: fails, writing nothing, when the normalised address is taken;
     * otherwise appends the full record to the user list and stores the public
     * record as the current user.
     */
    method Signup(name: string, email: string, password: string, role: Option<string>) returns (r: Result<PublicUser, Error>)
      requires Valid()
      modifies store
      ensures Valid()
      ensures var reg := Accounts.Register(old(StoredUsers(store.items)), name, email, password, role);
        && (reg.Failure? ==> r == Failure(reg.error) && store.items == old(store.items))
        && (reg.Success? ==>
              r == Success(PublicOf(Accounts.NewUser(name, email, password, role))) &&
              store.items == old(store.items)[UsersKey := UserList(reg.value)][CurrentUserKey := CurrentUser(r.value)])
    {
      var users := ReadUsers();
      var reg := Accounts.Register(users, name, email, password, role);
      if reg.Failure? {
        r := Failure(reg.error);
      } else {
        var user := PublicOf(Accounts.NewUser(name, email, password, role));
        UsersShaped(reg.value);
        CurrentUserShaped(user);
        store.SetItem(UsersKey, UserList(reg.value));
        store.SetItem(CurrentUserKey, CurrentUser(user));
        r := Success(user);
      }
    }

    /** `logout`: removes the current user and nothing else. */
    method Logout()
      requires Valid()
      modifies store
      ensures Valid()
      ensures store.items == old(store.items) - {CurrentUserKey}
    {
      store.RemoveItem(CurrentUserKey);
    }

    /** The key of the current user's project list (`ALH_projects_undefined` when nobody is signed in). */
    method CurrentProjectsKey() returns (key: string)
      requires Valid()
      ensures key == ProjectsKey(StoredCurrentUser(store.items))
    {
      var user := GetCurrentUser();
      key := ProjectsKey(user);
    }

    /** `getProjects`: the list under the current user's key, or [] when there is none. */
    method GetProjects() returns (projects: seq<Project>)
      requires Valid()
      ensures projects == StoredProjects(store.items, ProjectsKey(StoredCurrentUser(store.items)))
    {
      var key := CurrentProjectsKey();
      var raw := store.GetItem(key);
      projects := if raw.Some? then raw.value.projects else [];
    }

    /**
     * `saveProject`: writes the current user's list back with the project
     * inserted (under a new `proj_<now>` id) or replacing the first project
     * with its id, and returns the project as saved.
     */
    method SaveProject(project: Project, now: nat) returns (saved: Project)
      requires Valid()
      modifies store
      ensures Valid()
      ensures var key := ProjectsKey(old(StoredCurrentUser(store.items)));
        var r := Projects.SaveToList(old(StoredProjects(store.items, key)), project, now);
        saved == r.1 && store.items == old(store.items)[key := ProjectList(r.0)]
    {
      var projects := GetProjects();
      var key := CurrentProjectsKey();
      var r := Projects.SaveToList(projects, project, now);
      ProjectsShaped(StoredCurrentUser(store.items), r.0);
      store.SetItem(key, ProjectList(r.0));
      saved := r.1;
    }

    /** `deleteProject`: writes the current user's list back without the projects carrying `id`. */
    method DeleteProject(id: string)
      requires Valid()
      modifies store
      ensures Valid()
      ensures var key := ProjectsKey(old(StoredCurrentUser(store.items)));
        store.items == old(store.items)[key := ProjectList(Projects.RemoveById(old(StoredProjects(store.items, key)), id))]
    {
      var projects := GetProjects();
      var key := CurrentProjectsKey();
      var filtered := Projects.RemoveById(projects, id);
      ProjectsShaped(StoredCurrentUser(store.items), filtered);
      store.SetItem(key, ProjectList(filtered));
    }

    method ReadAppData() returns (data: AppData)
      requires Valid()
      ensures data == StoredAppData(store.items)
    {
      var raw := store.GetItem(DataKey);
      data := if raw.Some? then raw.value.data else AppData(Some([]), map[]);
    }

    /**
     * `saveBadge`: throws when the stored object has no badge list; writes the
     * list back with the badge stamped and appended only when its id is new,
     * and otherwise writes nothing.
     */
    method SaveBadge(badge: Badge, earnedAt: string) returns (r: Result<Badge, Error>)
      requires Valid()
      modifies store
      ensures Valid()
      ensures var data := old(StoredAppData(store.items));
        && (data.badges.None? ==> r == Failure(BadgesNotAList) && store.items == old(store.items))
        && (data.badges.Some? ==>
              var added := Badges.AddBadge(data.badges.value, badge, earnedAt);
              && r == Success(added.1)
              && store.items == if Any(data.badges.value, Badges.BadgeIdIs(badge.id)) then old(store.items)
                                else old(store.items)[DataKey := BadgeData(data.(badges := Some(added.0)))])
    {
      var data := ReadAppData();
      if data.badges.None? {
        r := Failure(BadgesNotAList);
      } else {
        var added := Badges.AddBadge(data.badges.value, badge, earnedAt);
        if !Any(data.badges.value, Badges.BadgeIdIs(badge.id)) {
          var data' := data.(badges := Some(added.0));
          AppDataShaped(data');
          store.SetItem(DataKey, BadgeData(data'));
        }
        r := Success(added.1);
      }
    }

    /** `getBadges`: `data.badges || []`. */
    method GetBadges() returns (badges: seq<Badge>)
      requires Valid()
      ensures badges == StoredAppData(store.items).badges.GetOr([])
    {
      var data := ReadAppData();
      badges := if data.badges.Some? then data.badges.value else [];
    }

    /** `saveSettings`: the four settings keys, each with its default. */
    method SaveSettings(s: Settings.SettingsInput)
      requires Valid()
      modifies store
      ensures Valid()
      ensures store.items == Settings.WriteSettings(old(store.items), s)
    {
      Settings.WriteSettingsFrame(store.items, s, "");
      store.SetItem(ThemeKey, Text(Or(s.theme, "dark")));
      store.SetItem(FontSizeKey, Text(Or(s.fontSize, "medium")));
      store.SetItem(NotificationsKey, Text(Settings.NotificationsText(s.notifications)));
      store.SetItem(LanguageKey, Text(Or(s.language, "pt-BR")));
    }

    method ReadText(key: string) returns (text: Option<string>)
      requires Valid() && key in TextKeys
      ensures text == StoredText(store.items, key)
    {
      var raw := store.GetItem(key);
      text := if raw.Some? then Some(raw.value.text) else None;
    }

    /** `getSettings`: the four keys with their defaults, notifications on exactly when stored as "true". */
    method GetSettings() returns (settings: Settings.LocalSettings)
      requires Valid()
      ensures settings == Settings.ReadSettings(store.items)
    {
      var theme := ReadText(ThemeKey);
      var fontSize := ReadText(FontSizeKey);
      var notifications := ReadText(NotificationsKey);
      var language := ReadText(LanguageKey);
      settings := Settings.LocalSettings(Or(theme, "dark"), Or(fontSize, "medium"), notifications == Some("true"), Or(language, "pt-BR"));
    }

    /**
     * `clearLocalStorage`: removes, one key at a time, every key with the
     * application prefix except the migration markers, then sets the markers.
     */
    method ClearLocalStorage(now: string)
      requires Valid()
      modifies store
      ensures Valid()
      ensures store.items == Sweep.Cleared(old(store.items), now)
    {
      var pending := store.Keys();
      ghost var initial := store.items;
      while pending != {}
        invariant pending <= initial.Keys
        invariant store.items == map k | k in initial && (k in pending || !Sweep.Sweeps(k)) :: initial[k]
        decreases pending
      {
        var key :| key in pending;
        if AppPrefix <= key && key !in Sweep.KeysToKeep {
          store.RemoveItem(key);
        }
        pending := pending - {key};
      }
      assert store.items == Sweep.Swept(initial);
      Sweep.ClearedWellShaped(initial, now);
      store.SetItem(MigrationCompletedKey, Text("true"));
      store.SetItem(MigrationDateKey, Text(now));
    }
  }
}
