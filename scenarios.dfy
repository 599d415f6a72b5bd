/**
 * Client runs of the local-mode service on a fresh store. Each one is proved
 * from the operations' contracts alone.
 */
module Scenarios {
  import opened Wrappers
  import opened Records
  import opened Layout
  import opened Service
  import Accounts
  import Projects
  import Badges
  import Email
  import JsArray

  function Blank(name: string): Project {
    Project(None, Some(name), None, None, None, None, None, None, None, None)
  }

  /**
   * Saving a project without an id and listing the projects gives exactly one
   * entry: that project, under the id `proj_<now>`.
   */
  method SaveThenList(now: nat) returns (saved: Project, listed: seq<Project>)
    ensures listed == [saved]
    ensures saved.id == Some(Projects.NewProjectId(now)) && saved.name == Some("X")
  {
    var store := new KeyValueStore();
    var service := new StorageService(store);
    saved := service.SaveProject(Blank("X"), now);
    listed := service.GetProjects();
  }

  /**
   * On a fresh store: signing up, signing out and signing in again with the
   * address in any letter case, padded with white space, returns the public
   * record (role "Aluno"), which is the current user afterwards; a second
   * signup under the address is refused.
   */
  method SignupLogoutLogin(name: string, email: string, password: string, variant: string, before: string, after: string)
    returns (login: Result<PublicUser, Error>, current: Option<PublicUser>, again: Result<PublicUser, Error>)
    requires Email.CaseVariant(email, variant) && Email.AllSpace(before) && Email.AllSpace(after)
    ensures login == Success(PublicUser(name, Email.Normalize(email), Accounts.DefaultRole))
    ensures current == Some(login.value)
    ensures again == Failure(EmailTaken)
  {
    var store := new KeyValueStore();
    var service := new StorageService(store);
    var signup := service.Signup(name, email, password, None);
    Accounts.SignupThenLogin([], name, email, password, None, variant, before, after);
    service.Logout();
    login := service.Login(before + variant + after, password);
    current := service.GetCurrentUser();
    Accounts.SignupTwiceRefused([], name, email, password, None, name, variant, before, after, password, None);
    again := service.Signup(name, before + variant + after, password, None);
  }

  /** Saving the same badge twice stores it once, stamped with the first time. */
  method BadgeTwice(t1: string, t2: string) returns (badges: seq<Badge>)
    ensures |badges| == 1
    ensures badges[0].id == "first-project" && badges[0].earnedAt == Some(t1)
  {
    var store := new KeyValueStore();
    var service := new StorageService(store);
    var badge := Badge("first-project", "Primeiro projeto", "", "", 50, None, None, None);
    var stamped := badge.(earnedAt := Some(t1));
    assert StoredAppData(store.items) == AppData(Some([]), map[]);
    assert !JsArray.Any([], Badges.BadgeIdIs(badge.id));
    var added := Badges.AddBadge([], badge, t1);
    assert added.1 == stamped && added.0 == [stamped];
    var r1 := service.SaveBadge(badge, t1);
    assert store.items[DataKey] == BadgeData(AppData(Some([stamped]), map[]));
    assert StoredAppData(store.items).badges == Some([stamped]);
    assert JsArray.Any([stamped], Badges.BadgeIdIs(badge.id)) by {
      assert Badges.BadgeIdIs(badge.id)([stamped][0]);
    }
    var r2 := service.SaveBadge(badge, t2);
    badges := service.GetBadges();
  }
}
