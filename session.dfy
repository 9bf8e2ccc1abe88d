/**
 * The mock session context: a hard-coded login, a logout, and the restore of the "user" entry of
 * local storage when the provider mounts.
 */
module Session {
  import opened Storage
  import opened Optional

  /** What `login` stores and exposes: `{ email }`. */
  datatype User = User(email: string)

  const UserKey: string := "user"
  const AdminEmail: string := "admin@test.com"
  const AdminPassword: string := "123456"

  /** The one pair of credentials `login` accepts. */
  predicate CredentialsAccepted(email: string, password: string) {
    email == AdminEmail && password == AdminPassword
  }

  /** What the mount effect finds under "user". */
  datatype Restore = NoUser | RestoredUser(user: User) | Unreadable

  /**
   * `localStorage.getItem("user")` through the mount effect: nothing restored for a missing or empty
   * entry, the stored user for a parsed one, and a thrown parse error for anything else.
   */
  function ReadStoredUser(storage: Store<User>): (r: Restore)
    ensures r.RestoredUser? <==> UserKey in storage && storage[UserKey].Json?
    ensures r.RestoredUser? ==> r.user == storage[UserKey].value
    ensures r.Unreadable? <==> UserKey in storage && storage[UserKey].Malformed?
  {
    if UserKey !in storage then NoUser
    else match storage[UserKey]
      case Blank => NoUser
      case Malformed => Unreadable
      case Json(u) => RestoredUser(u)
  }

  /** The store after a successful login holds that user; after a logout it holds none. */
  lemma StoreRoundTrips(storage: Store<User>, email: string)
    ensures ReadStoredUser(storage[UserKey := Json(User(email))]) == RestoredUser(User(email))
    ensures ReadStoredUser(storage - {UserKey}) == NoUser
  {
  }

  class AuthProvider {
    var currentUser: Option<User>
    var isLoadingUser: bool
    /** The provider's view of local storage; only the "user" key is read or written. */
    var storage: Store<User>

    /** The first render: no user, still loading. */
    constructor (storage: Store<User>)
      ensures currentUser == None && isLoadingUser && this.storage == storage
    {
      currentUser := None;
      isLoadingUser := true;
      this.storage := storage;
    }

    /**
     * The mount effect. A stored user becomes the current user; either way loading ends. An entry
     * that does not parse makes `JSON.parse` throw before loading ends: then `ok` is false and
     * nothing changes.
     */
    method Mount() returns (ok: bool)
      modifies this`currentUser, this`isLoadingUser
      ensures ok <==> !ReadStoredUser(storage).Unreadable?
      ensures !ok ==> currentUser == old(currentUser) && isLoadingUser == old(isLoadingUser)
      ensures ok ==> !isLoadingUser
      ensures ReadStoredUser(storage).NoUser? ==> currentUser == old(currentUser)
      ensures ReadStoredUser(storage).RestoredUser? ==> currentUser == Some(ReadStoredUser(storage).user)
    {
      if UserKey in storage && storage[UserKey] != Blank {
        match storage[UserKey]
        case Malformed =>
          return false;
        case Json(u) =>
          currentUser := Some(u);
      }
      isLoadingUser := false;
      return true;
    }

    /** `login`: only the hard-coded pair succeeds; a failure changes nothing. */
    method Login(email: string, password: string) returns (ok: bool)
      modifies this`currentUser, this`storage
      ensures ok <==> CredentialsAccepted(email, password)
      ensures ok ==> currentUser == Some(User(email)) && storage == old(storage)[UserKey := Json(User(email))]
      ensures !ok ==> currentUser == old(currentUser) && storage == old(storage)
    {
      if email == AdminEmail && password == AdminPassword {
        var user := User(email);
        currentUser := Some(user);
        storage := storage[UserKey := Json(user)];
        return true;
      }
      return false;
    }

    /** `logout`: no current user and no stored one. */
    method Logout()
      modifies this`currentUser, this`storage
      ensures currentUser == None && storage == old(storage) - {UserKey}
    {
      currentUser := None;
      storage := storage - {UserKey};
    }
  }

  /** A successful login survives a remount: a new provider over the same storage restores the user. */
  method LoginThenRemount(provider: AuthProvider, email: string, password: string) returns (next: AuthProvider)
    requires CredentialsAccepted(email, password)
    modifies provider
    ensures next.currentUser == Some(User(email)) && !next.isLoadingUser
  {
    var ok := provider.Login(email, password);
    next := new AuthProvider(provider.storage);
    ok := next.Mount();
  }

  /** After a logout a remount finds no user. */
  method LogoutThenRemount(provider: AuthProvider) returns (next: AuthProvider)
    modifies provider
    ensures next.currentUser == None && !next.isLoadingUser
  {
    provider.Logout();
    next := new AuthProvider(provider.storage);
    var ok := next.Mount();
  }

  /** Logging out twice is the same as logging out once. */
  method LogoutIsIdempotent(provider: AuthProvider)
    modifies provider
    ensures provider.currentUser == None && provider.storage == old(provider.storage) - {UserKey}
  {
    provider.Logout();
    provider.Logout();
    assert provider.storage == old(provider.storage) - {UserKey} - {UserKey};
  }
}
