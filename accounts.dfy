/**
 * The local user registry: signup appends to the user list under a
 * normalised address, login looks the address up and checks the password.
 */
module Accounts {
  import opened Wrappers
  import opened Records
  import opened Email
  import opened JsArray

  const DefaultRole := "Aluno"

  /** `u => u.email === email` */
  function HasEmail(email: string): UserRecord -> bool {
    (u: UserRecord) => u.email == email
  }

  /**
   * The local `login`: the first user whose address equals the normalised one;
   * "not found" when there is none, "wrong password" when its password differs,
   * otherwise that user's public record.
   */
  function Login(users: seq<UserRecord>, email: string, password: string): (r: Result<PublicUser, Error>)
    ensures r == Failure(UserNotFound) <==> forall k :: 0 <= k < |users| ==> users[k].email != Normalize(email)
    ensures r.Failure? ==> r.error == UserNotFound || r.error == WrongPassword
    ensures r.Success? ==>
      exists k :: 0 <= k < |users| && users[k].email == Normalize(email) &&
        users[k].password == password && r.value == PublicOf(users[k])
    ensures var i := FindIndex(users, HasEmail(Normalize(email)));
      0 <= i ==> (r.Success? <==> users[i].password == password) && (r.Success? ==> r.value == PublicOf(users[i]))
  {
    var found := Find(users, HasEmail(Normalize(email)));
    if found.None? then Failure(UserNotFound)
    else if found.value.password != password then Failure(WrongPassword)
    else Success(PublicOf(found.value))
  }

  /** The full record signup stores: normalised address, role defaulting to "Aluno". */
  function NewUser(name: string, email: string, password: string, role: Option<string>): (u: UserRecord)
    ensures u.name == name && u.password == password
    ensures u.email == Normalize(email) && NoUpper(u.email) && Trimmed(u.email)
    ensures role.None? ==> u.role == "Aluno"
    ensures role.Some? ==> u.role == role.value
  {
    UserRecord(name, Normalize(email), password, role.GetOr(DefaultRole))
  }

  /**
   * The local `signup` on the user list: a conflict when some user already has
   * the normalised address, otherwise the list with the new record appended.
   */
  function Register(users: seq<UserRecord>, name: string, email: string, password: string, role: Option<string>)
    : (r: Result<seq<UserRecord>, Error>)
    ensures r.Failure? <==> exists k :: 0 <= k < |users| && users[k].email == Normalize(email)
    ensures r.Failure? ==> r.error == EmailTaken
    ensures r.Success? ==>
      |r.value| == |users| + 1 && r.value[..|users|] == users &&
      r.value[|users|] == NewUser(name, email, password, role)
  {
    if Any(users, HasEmail(Normalize(email))) then Failure(EmailTaken)
    else Success(users + [NewUser(name, email, password, role)])
  }

  /** No two users share an address. */
  predicate DistinctEmails(users: seq<UserRecord>) {
    forall j, k :: 0 <= j < k < |users| ==> users[j].email != users[k].email
  }

  /** Every stored address is in normal form. */
  predicate NormalizedEmails(users: seq<UserRecord>) {
    forall k :: 0 <= k < |users| ==> Normalize(users[k].email) == users[k].email
  }

  /** The registry invariant signup keeps: addresses are normalised and pairwise distinct. */
  predicate WellFormed(users: seq<UserRecord>) {
    DistinctEmails(users) && NormalizedEmails(users)
  }

  /** Signup never stores a second user under an address already present. */
  lemma RegisterKeepsEmailsDistinct(users: seq<UserRecord>, name: string, email: string, password: string, role: Option<string>)
    requires DistinctEmails(users)
    requires Register(users, name, email, password, role).Success?
    ensures DistinctEmails(Register(users, name, email, password, role).value)
  {
    var rec := NewUser(name, email, password, role);
    var users' := users + [rec];
    assert Register(users, name, email, password, role).value == users';
    assert forall k :: 0 <= k < |users| ==> users[k].email != rec.email;
    forall j, k | 0 <= j < k < |users'|
      ensures users'[j].email != users'[k].email
    {
      assert users'[j] == users[j];
      if k < |users| {
        assert users'[k] == users[k];
      }
    }
  }

  /** Signup stores the address in normal form. */
  lemma RegisterKeepsEmailsNormalized(users: seq<UserRecord>, name: string, email: string, password: string, role: Option<string>)
    requires NormalizedEmails(users)
    requires Register(users, name, email, password, role).Success?
    ensures NormalizedEmails(Register(users, name, email, password, role).value)
  {
    var rec := NewUser(name, email, password, role);
    var users' := users + [rec];
    assert Register(users, name, email, password, role).value == users';
    NormalizeIdempotent(email);
    forall k | 0 <= k < |users'|
      ensures Normalize(users'[k].email) == users'[k].email
    {
      if k < |users| {
        assert users'[k] == users[k];
      }
    }
  }

  /** Signup keeps the registry well formed. */
  lemma RegisterPreservesWellFormed(users: seq<UserRecord>, name: string, email: string, password: string, role: Option<string>)
    requires WellFormed(users)
    requires Register(users, name, email, password, role).Success?
    ensures WellFormed(Register(users, name, email, password, role).value)
  {
    RegisterKeepsEmailsDistinct(users, name, email, password, role);
    RegisterKeepsEmailsNormalized(users, name, email, password, role);
  }

  /**
   * After a successful signup, logging in with the same password and the
   * address in any letter case, padded with white space, returns the public
   * record: the name, the normalised address and the role (by default "Aluno").
   */
  lemma SignupThenLogin(
    users: seq<UserRecord>, name: string, email: string, password: string, role: Option<string>,
    variant: string, before: string, after: string)
    requires Register(users, name, email, password, role).Success?
    requires CaseVariant(email, variant) && AllSpace(before) && AllSpace(after)
    ensures Login(Register(users, name, email, password, role).value, before + variant + after, password)
         == Success(PublicUser(name, Normalize(email), role.GetOr(DefaultRole)))
  {
    NormalizeVariant(email, variant, before, after);
    var rec := NewUser(name, email, password, role);
    assert Register(users, name, email, password, role).value == users + [rec];
    FindAppended(users, rec, HasEmail(Normalize(email)));
  }

  /** After a successful signup, any other password is refused as wrong, not as unknown. */
  lemma SignupThenWrongPassword(
    users: seq<UserRecord>, name: string, email: string, password: string, role: Option<string>, other: string)
    requires Register(users, name, email, password, role).Success?
    requires other != password
    ensures Login(Register(users, name, email, password, role).value, email, other) == Failure(WrongPassword)
  {
    var rec := NewUser(name, email, password, role);
    assert Register(users, name, email, password, role).value == users + [rec];
    FindAppended(users, rec, HasEmail(Normalize(email)));
  }

  /** Signup of an address already registered, in any case or padding, is refused. */
  lemma SignupTwiceRefused(
    users: seq<UserRecord>, name: string, email: string, password: string, role: Option<string>,
    name2: string, variant: string, before: string, after: string, password2: string, role2: Option<string>)
    requires Register(users, name, email, password, role).Success?
    requires CaseVariant(email, variant) && AllSpace(before) && AllSpace(after)
    ensures Register(Register(users, name, email, password, role).value, name2, before + variant + after, password2, role2)
         == Failure(EmailTaken)
  {
    NormalizeVariant(email, variant, before, after);
    var users' := Register(users, name, email, password, role).value;
    assert users'[|users|].email == Normalize(before + variant + after);
  }

  /**
   * When no two users share an address, login succeeds exactly when some user has the
   * normalised address and the given password.
   */
  lemma LoginIffCredentials(users: seq<UserRecord>, email: string, password: string)
    requires DistinctEmails(users)
    ensures Login(users, email, password).Success? <==>
      exists k :: 0 <= k < |users| && users[k].email == Normalize(email) && users[k].password == password
  {
    var p := HasEmail(Normalize(email));
    var i := FindIndex(users, p);
    if k :| 0 <= k < |users| && users[k].email == Normalize(email) && users[k].password == password {
      assert p(users[k]);
      assert i != -1;
      assert users[i].email == users[k].email;
      assert i == k;
      assert Find(users, p) == Some(users[k]);
    }
  }
}
