/**
 * `clearLocalStorage`: every key with the application prefix goes, except the
 * two migration markers, which are then set.
 */
module Sweep {
  import opened Wrappers
  import opened Layout
  import Settings

  const KeysToKeep: set<string> := {MigrationCompletedKey, MigrationDateKey}

  /** Whether the sweep removes `key`. */
  predicate Sweeps(key: string) {
    AppPrefix <= key && key !in KeysToKeep
  }

  /**
   * The store after the sweep loop, before the markers are set: exactly the
   * keys the sweep spares, each with its value.
   */
  function Swept(items: map<string, Value>): (r: map<string, Value>)
    ensures forall k :: k in r ==> k in items && !Sweeps(k) && r[k] == items[k]
    ensures forall k :: k in items && !Sweeps(k) ==> k in r
  {
    map k | k in items && !Sweeps(k) :: items[k]
  }

  /**
   * The store after `clearLocalStorage` run at `now`: no prefixed key is left
   * but the two markers, the completed marker reads "true" and the date marker
   * `now`, and every key without the prefix is kept with its value.
   */
  function Cleared(items: map<string, Value>, now: string): (r: map<string, Value>)
    ensures forall k :: k in r && AppPrefix <= k ==> k in KeysToKeep
    ensures MigrationCompletedKey in r && r[MigrationCompletedKey] == Text("true")
    ensures MigrationDateKey in r && r[MigrationDateKey] == Text(now)
    ensures forall k :: !(AppPrefix <= k) ==> (k in r <==> k in items) && (k in items ==> r[k] == items[k])
  {
    assert MigrationCompletedKey != MigrationDateKey;
    assert AppPrefix <= MigrationCompletedKey && AppPrefix <= MigrationDateKey;
    Swept(items)[MigrationCompletedKey := Text("true")][MigrationDateKey := Text(now)]
  }

  /** Clearing keeps the store well shaped. */
  lemma ClearedWellShaped(items: map<string, Value>, now: string)
    requires WellShaped(items)
    ensures WellShaped(Cleared(items, now))
  {
    TextKeyShaped(MigrationCompletedKey, "true");
    TextKeyShaped(MigrationDateKey, now);
  }

  /** A key the sweep removes is absent afterwards. */
  lemma ClearedDrops(items: map<string, Value>, now: string, key: string)
    requires Sweeps(key)
    ensures key !in Cleared(items, now)
  {
    assert key != MigrationCompletedKey && key != MigrationDateKey;
  }

  /** After clearing, the service reads an empty account: no users, no current user, no projects, no badges. */
  lemma ClearedEmptiesAccount(items: map<string, Value>, now: string, projectsKey: string)
    requires WellShaped(items)
    requires ProjectsPrefix <= projectsKey
    ensures WellShaped(Cleared(items, now))
    ensures StoredUsers(Cleared(items, now)) == []
    ensures StoredCurrentUser(Cleared(items, now)) == None
    ensures StoredProjects(Cleared(items, now), projectsKey) == []
    ensures StoredAppData(Cleared(items, now)).badges == Some([])
  {
    ClearedWellShaped(items, now);
    assert projectsKey[..4] == ProjectsPrefix[..4] == AppPrefix;
    assert projectsKey[4] == 'p';
    ClearedDrops(items, now, UsersKey);
    ClearedDrops(items, now, CurrentUserKey);
    ClearedDrops(items, now, DataKey);
    ClearedDrops(items, now, projectsKey);
  }

  /** After clearing, the local settings read back as their defaults. */
  lemma ClearedSettingsDefaults(items: map<string, Value>, now: string)
    requires WellShaped(items)
    ensures WellShaped(Cleared(items, now))
    ensures Settings.ReadSettings(Cleared(items, now)) == Settings.LocalSettings("dark", "medium", false, "pt-BR")
  {
    ClearedWellShaped(items, now);
    ClearedDrops(items, now, ThemeKey);
    ClearedDrops(items, now, FontSizeKey);
    ClearedDrops(items, now, NotificationsKey);
    ClearedDrops(items, now, LanguageKey);
  }
}
