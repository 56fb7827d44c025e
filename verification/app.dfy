/**
 * The application shell of `src/App.jsx`: who is signed in, which section
 * is shown, and the copy of the signed-in user kept in the browser's
 * local storage under the key "biodash-user".
 *
 * Local storage is a map from keys to strings. `JSON.stringify` and
 * `JSON.parse` are parameters: `encode` writes a user, `parse` reads a
 * stored string back, failing or yielding a value that is either a user
 * or falsy (`null`, `false`, `0`, ...).
 */
module App {
  import opened Text
  import opened Auth

  const UserKey := "biodash-user"

  /** What `JSON.parse` makes of a stored string. */
  datatype Parsed = Malformed | Value(user: Option<User>)

  /** The page the shell renders. */
  datatype Page = AuthPage | DashboardPage | SupplementsPage | InteractionsPage | TransparencyPage | HealthPage

  /** The shell's state together with the storage it reads and writes. */
  datatype Session = Session(user: Option<User>, section: string, storage: map<string, string>)

  /** The state before the load effect: nobody signed in, the dashboard section. */
  function Init(storage: map<string, string>): (s: Session)
    ensures s.user == None && s.section == "dashboard" && s.storage == storage
  {
    Session(None, "dashboard", storage)
  }

  /**
   * The load effect: a stored non-empty value that parses becomes the
   * user; one that does not parse is removed; a missing or empty one
   * changes nothing.
   */
  function Load(s: Session, parse: string -> Parsed): (r: Session)
    ensures r.section == s.section && r.storage.Keys <= s.storage.Keys
  {
    if UserKey !in s.storage || s.storage[UserKey] == "" then s
    else match parse(s.storage[UserKey])
      case Malformed => s.(storage := s.storage - {UserKey})
      case Value(v) => s.(user := v)
  }

  /** `handleLogin`. */
  function Login(s: Session, u: User, encode: User -> string): (r: Session)
    ensures Render(r) == DashboardPage && UserKey in r.storage
  {
    Session(Some(u), "dashboard", s.storage[UserKey := encode(u)])
  }

  /** `handleLogout`. */
  function Logout(s: Session): (r: Session)
    ensures Render(r) == AuthPage && UserKey !in r.storage
  {
    Session(None, "auth", s.storage - {UserKey})
  }

  /** `handleSectionChange`. */
  function ChangeSection(s: Session, section: string): (r: Session)
    ensures section != "auth" ==> r.user == s.user && r.storage == s.storage
  {
    if section == "auth" then Logout(s) else s.(section := section)
  }

  /** What the shell renders: the sign-in page without a user, else the section's page. */
  function Render(s: Session): (page: Page)
    ensures page == AuthPage <==> s.user.None?
  {
    if s.user.None? then AuthPage
    else match s.section
      case "dashboard" => DashboardPage
      case "supplements" => SupplementsPage
      case "interactions" => InteractionsPage
      case "transparency" => TransparencyPage
      case "health" => HealthPage
      case _ => DashboardPage
  }

  // ---------------------------------------------------------------------------
  // Properties of the transitions
  // ---------------------------------------------------------------------------

  /** The three outcomes of the load effect, and that it touches nothing but the user and the one key. */
  lemma LoadSpec(s: Session, parse: string -> Parsed)
    ensures Load(s, parse).section == s.section
    ensures UserKey in s.storage && s.storage[UserKey] != "" && parse(s.storage[UserKey]).Value? ==>
      Load(s, parse) == s.(user := parse(s.storage[UserKey]).user)
    ensures UserKey in s.storage && s.storage[UserKey] != "" && parse(s.storage[UserKey]).Malformed? ==>
      Load(s, parse).user == s.user && UserKey !in Load(s, parse).storage
    ensures UserKey !in s.storage || s.storage[UserKey] == "" ==> Load(s, parse) == s
    ensures forall k | k != UserKey :: (k in Load(s, parse).storage <==> k in s.storage)
    ensures forall k | k != UserKey && k in s.storage :: Load(s, parse).storage[k] == s.storage[k]
  {
  }

  /** Signing out forgets the user, shows the sign-in page and removes the one key, no other. */
  lemma LogoutSpec(s: Session)
    ensures Logout(s).user == None && Render(Logout(s)) == AuthPage
    ensures UserKey !in Logout(s).storage
    ensures forall k | k != UserKey :: (k in Logout(s).storage <==> k in s.storage)
    ensures forall k | k != UserKey && k in s.storage :: Logout(s).storage[k] == s.storage[k]
  {
  }

  /** Choosing "auth" is signing out; any other section is kept as given, user and storage untouched. */
  lemma ChangeSectionSpec(s: Session, section: string)
    ensures section == "auth" ==> ChangeSection(s, section) == Logout(s)
    ensures section != "auth" ==>
      && ChangeSection(s, section).section == section
      && ChangeSection(s, section).user == s.user
      && ChangeSection(s, section).storage == s.storage
  {
  }

  /** The stored copy always reads back as the signed-in user. */
  predicate Consistent(s: Session, parse: string -> Parsed) {
    s.user.Some? ==> UserKey in s.storage && s.storage[UserKey] != ""
                     && parse(s.storage[UserKey]) == Value(s.user)
  }

  /** `JSON.parse` reads back what `JSON.stringify` wrote, and that is never the empty string. */
  ghost predicate RoundTrips(encode: User -> string, parse: string -> Parsed) {
    forall u: User :: encode(u) != "" && parse(encode(u)) == Value(Some(u))
  }

  /** Every transition keeps the stored copy consistent with the signed-in user. */
  lemma ConsistencyPreserved(s: Session, u: User, section: string, encode: User -> string, parse: string -> Parsed)
    requires RoundTrips(encode, parse)
    ensures Consistent(Init(s.storage), parse)
    ensures Consistent(s, parse) ==> Consistent(Load(s, parse), parse)
    ensures Consistent(Login(s, u, encode), parse)
    ensures Consistent(Logout(s), parse)
    ensures Consistent(s, parse) ==> Consistent(ChangeSection(s, section), parse)
  {
    assert encode(u) != "" && parse(encode(u)) == Value(Some(u));
  }

  /**
   * A sign-in survives a reload: starting afresh from the storage a login
   * left and running the load effect restores that user on the dashboard.
   */
  lemma LoginSurvivesReload(s: Session, u: User, encode: User -> string, parse: string -> Parsed)
    requires RoundTrips(encode, parse)
    ensures var reloaded := Load(Init(Login(s, u, encode).storage), parse);
      && reloaded.user == Some(u) && Render(reloaded) == DashboardPage
  {
    assert encode(u) != "" && parse(encode(u)) == Value(Some(u));
  }

  /** A sign-out survives a reload: the load effect finds nothing and the sign-in page shows. */
  lemma LogoutSurvivesReload(s: Session, parse: string -> Parsed)
    ensures var reloaded := Load(Init(Logout(s).storage), parse);
      && reloaded.user == None && Render(reloaded) == AuthPage
  {
  }

  /**
   * The sign-in page shows exactly when nobody is signed in; otherwise the
   * five known sections show their pages and any other section the dashboard.
   */
  lemma RenderSpec(s: Session)
    ensures Render(s) == AuthPage <==> s.user.None?
    ensures s.user.Some? ==> (Render(s) == SupplementsPage <==> s.section == "supplements")
    ensures s.user.Some? ==> (Render(s) == InteractionsPage <==> s.section == "interactions")
    ensures s.user.Some? ==> (Render(s) == TransparencyPage <==> s.section == "transparency")
    ensures s.user.Some? ==> (Render(s) == HealthPage <==> s.section == "health")
    ensures s.user.Some? ==> (Render(s) == DashboardPage
      <==> s.section !in {"supplements", "interactions", "transparency", "health"})
  {
  }

  // ---------------------------------------------------------------------------
  // The shell
  // ---------------------------------------------------------------------------

  /** The state of `App`, with the browser's local storage. */
  class Shell {
    var currentUser: Option<User>
    var currentSection: string
    var storage: map<string, string>

    function State(): Session
      reads this
    {
      Session(currentUser, currentSection, storage)
    }

    constructor (storage: map<string, string>)
      ensures State() == Init(storage)
    {
      currentUser := None;
      currentSection := "dashboard";
      this.storage := storage;
    }

    /** The effect that runs once after the first render. */
    method LoadSession(parse: string -> Parsed)
      modifies this
      ensures State() == Load(old(State()), parse)
    {
      if UserKey in storage && storage[UserKey] != "" {
        var savedUser := storage[UserKey];
        match parse(savedUser)
        case Malformed =>
          storage := storage - {UserKey};
        case Value(v) =>
          currentUser := v;
      }
    }

    method HandleLogin(user: User, encode: User -> string)
      modifies this
      ensures State() == Login(old(State()), user, encode)
    {
      currentUser := Some(user);
      storage := storage[UserKey := encode(user)];
      currentSection := "dashboard";
    }

    method HandleLogout()
      modifies this
      ensures State() == Logout(old(State()))
    {
      currentUser := None;
      storage := storage - {UserKey};
      currentSection := "auth";
    }

    method HandleSectionChange(section: string)
      modifies this
      ensures State() == ChangeSection(old(State()), section)
    {
      if section == "auth" {
        HandleLogout();
      } else {
        currentSection := section;
      }
    }

    /** The page the shell renders now. */
    method CurrentPage() returns (page: Page)
      ensures page == Render(State())
      ensures page == AuthPage <==> currentUser.None?
    {
      if currentUser.None? {
        return AuthPage;
      }
      match currentSection
      case "dashboard" => page := DashboardPage;
      case "supplements" => page := SupplementsPage;
      case "interactions" => page := InteractionsPage;
      case "transparency" => page := TransparencyPage;
      case "health" => page := HealthPage;
      case _ => page := DashboardPage;
    }
  }
}
