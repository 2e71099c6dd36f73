/** The authentication context (contexts/AuthContext.tsx): the signed-in
    admin, the loading and error flags, and the 'admin_user' entry of local
    storage that keeps the admin across page loads. The admin lookup in the
    database and `bcrypt.compare` are not part of this model: they are
    parameters. */
module Auth {
  import opened Common
  import opened Json

  /** `AdminUser`: the admin row without its password hash. */
  datatype AdminUser = AdminUser(adminId: string, adminName: Option<string>, email: Option<string>, contactNo: Option<string>)

  /** A row of `admin_table` as the sign-in lookup selects it. */
  datatype AdminRow = AdminRow(adminId: string, adminName: Option<string>, email: Option<string>, contactNo: Option<string>, password: string)

  /** `const { password: _, ...userData } = adminData` */
  function WithoutPassword(row: AdminRow): AdminUser
  {
    AdminUser(row.adminId, row.adminName, row.email, row.contactNo)
  }

  // ---------------------------------------------------------------------
  // The stored entry

  const IdKey := "{\"admin_id\":"
  const NameKey := ",\"admin_name\":"
  const EmailKey := ",\"email\":"
  const ContactKey := ",\"contact_no\":"

  /** `JSON.stringify(userData)`: the four properties in the order the
      lookup selected them, a missing value as `null`. */
  function Stringify(u: AdminUser): string
  {
    IdKey + (Quote(u.adminId) + (NameKey + (Nullable(u.adminName) + (EmailKey + (Nullable(u.email)
      + (ContactKey + (Nullable(u.contactNo) + "}")))))))
  }

  /** `JSON.parse` of a stored entry written in that form; anything else is
      refused, as a parse that throws. */
  function ParseUser(s: string): Option<AdminUser>
  {
    match After(IdKey, s)
    case None => None
    case Some(r0) =>
      match ParseString(r0)
      case None => None
      case Some((id, r1)) =>
        match After(NameKey, r1)
        case None => None
        case Some(r2) =>
          match ParseNullable(r2)
          case None => None
          case Some((name, r3)) =>
            match After(EmailKey, r3)
            case None => None
            case Some(r4) =>
              match ParseNullable(r4)
              case None => None
              case Some((email, r5)) =>
                match After(ContactKey, r5)
                case None => None
                case Some(r6) =>
                  match ParseNullable(r6)
                  case None => None
                  case Some((contact, r7)) =>
                    if r7 == "}" then Some(AdminUser(id, name, email, contact)) else None
  }

  /** What sign-in stores is read back as the same admin, and is never the
      empty string, so the next page load finds it. */
  lemma StoredUserReadsBack(u: AdminUser)
    ensures ParseUser(Stringify(u)) == Some(u)
    ensures Truthy(Some(Stringify(u)))
  {
    var r7 := "}";
    var r6 := Nullable(u.contactNo) + r7;
    var r5 := ContactKey + r6;
    var r4 := Nullable(u.email) + r5;
    var r3 := EmailKey + r4;
    var r2 := Nullable(u.adminName) + r3;
    var r1 := NameKey + r2;
    var r0 := Quote(u.adminId) + r1;
    AfterRead(IdKey, r0);
    QuoteRead(u.adminId, r1);
    AfterRead(NameKey, r2);
    NullableRead(u.adminName, r3);
    AfterRead(EmailKey, r4);
    NullableRead(u.email, r5);
    AfterRead(ContactKey, r6);
    NullableRead(u.contactNo, r7);
  }

  // ---------------------------------------------------------------------
  // The provider

  const EmailNotFound := "Email not found"
  const InvalidPassword := "Invalid password"
  const SignInFailed := "Failed to sign in"

  /** The admin lookup by e-mail: the row, or `None` for a lookup error or
      no single matching row. */
  type Lookup = string -> Option<AdminRow>

  /** `bcrypt.compare(password, hash)`: its verdict, or the message of the
      error it throws. */
  type Compare = (string, string) -> Result<bool>

  /** `JSON.parse` of the stored entry: the admin, or `None` when it throws. */
  type Parser = string -> Option<AdminUser>

  /** The message `setError(err.message || 'Failed to sign in')` records. */
  function SignInError(msg: string): (m: string)
    ensures m != ""
    ensures msg != "" ==> m == msg
  {
    if msg == "" then SignInFailed else msg
  }

  /** The context value the provider exposes. */
  datatype AuthContext = AuthContext(user: Option<AdminUser>, loading: bool, error: Option<string>)

  class AuthProvider {
    var user: Option<AdminUser>
    var loading: bool
    var error: Option<string>
    /** The 'admin_user' entry of local storage. */
    var stored: Option<string>
    /** The paths passed to `navigate`, oldest first. */
    var navigations: seq<string>

    /** Mounting: no admin, loading, no error, over the storage as found. */
    constructor (storage: Option<string>)
      ensures user == None && loading && error == None
      ensures stored == storage && navigations == []
    {
      user, loading, error := None, true, None;
      stored, navigations := storage, [];
    }

    /** The stored entry is the stringified admin when one is signed in,
        and absent otherwise. */
    predicate Synced()
      reads this
    {
      if user.None? then stored.None? else stored == Some(Stringify(user.value))
    }

    function Value(): (c: AuthContext)
      reads this
      ensures c.user == user && c.loading == loading && c.error == error
    {
      AuthContext(user, loading, error)
    }

    /** The mount effect: a non-empty stored entry that parses becomes the
        admin; one that does not parse is removed; loading ends. */
    method Restore(parse: Parser)
      modifies this
      ensures !loading
      ensures Truthy(old(stored)) && parse(old(stored).value).Some? ==>
        user == parse(old(stored).value) && stored == old(stored)
      ensures Truthy(old(stored)) && parse(old(stored).value).None? ==> user == old(user) && stored == None
      ensures !Truthy(old(stored)) ==> user == old(user) && stored == old(stored)
      ensures error == old(error) && navigations == old(navigations)
    {
      if stored.Some? && stored.value != "" {
        var parsed := parse(stored.value);
        if parsed.Some? {
          user := parsed;
        } else {
          stored := None;
        }
      }
      loading := false;
    }

    /** `signIn(email, password)` with `lookup` answering the admin query
        and `compare` standing for `bcrypt.compare`. A missing row fails
        with 'Email not found', a mismatch with 'Invalid password', a throw
        of `compare` with its message or 'Failed to sign in'; a failure
        leaves the admin, the stored entry and the location alone. A match
        signs in the row without its password, stores it and goes to
        '/dashboard'. Loading ends false in every outcome. */
    method SignIn(email: string, password: string, lookup: Lookup, compare: Compare)
      modifies this
      ensures !loading
      ensures lookup(email).None? ==>
        error == Some(EmailNotFound) && user == old(user) && stored == old(stored) && navigations == old(navigations)
      ensures lookup(email).Some? && compare(password, lookup(email).value.password) == Ok(false) ==>
        error == Some(InvalidPassword) && user == old(user) && stored == old(stored) && navigations == old(navigations)
      ensures lookup(email).Some? && compare(password, lookup(email).value.password).Err? ==>
        error == Some(SignInError(compare(password, lookup(email).value.password).msg))
        && user == old(user) && stored == old(stored) && navigations == old(navigations)
      ensures lookup(email).Some? && compare(password, lookup(email).value.password) == Ok(true) ==>
        var u := WithoutPassword(lookup(email).value);
        && error == None && user == Some(u) && stored == Some(Stringify(u))
        && navigations == old(navigations) + ["/dashboard"]
      ensures old(Synced()) ==> Synced()
    {
      loading := true;
      error := None;
      var thrown: Option<string> := None;
      var row := lookup(email);
      if row.None? {
        thrown := Some(EmailNotFound);
      } else {
        var isMatch := compare(password, row.value.password);
        if isMatch.Err? {
          thrown := Some(isMatch.msg);
        } else if !isMatch.value {
          thrown := Some(InvalidPassword);
        } else {
          var userData := WithoutPassword(row.value);
          user := Some(userData);
          stored := Some(Stringify(userData));
          navigations := navigations + ["/dashboard"];
        }
      }
      if thrown.Some? {
        error := Some(SignInError(thrown.value));
      }
      loading := false;
    }

    /** `signOut()`: no admin, no stored entry, no error, and the app goes to
        '/login'. */
    method SignOut()
      modifies this
      ensures user == None && stored == None && error == None && !loading
      ensures navigations == old(navigations) + ["/login"]
      ensures Synced()
    {
      loading := true;
      error := None;
      user := None;
      stored := None;
      navigations := navigations + ["/login"];
      loading := false;
    }

    /** A page load after this state: a new provider over the same storage,
        mounted with the JSON reader, restores the same admin. */
    method Reload() returns (p: AuthProvider)
      requires Synced()
      ensures fresh(p)
      ensures p.user == user && p.stored == stored && !p.loading && p.error == None
    {
      p := new AuthProvider(stored);
      if user.Some? {
        StoredUserReadsBack(user.value);
      }
      p.Restore(ParseUser);
    }
  }

  const OutsideProvider := "useAuth must be used within an AuthProvider"

  /** `useAuth()`: the value of the nearest provider, or the error thrown
      when the component is not inside one. */
  function UseAuth(context: Option<AuthContext>): (r: Result<AuthContext>)
    ensures r.Err? <==> context.None?
    ensures r.Err? ==> r.msg == OutsideProvider
    ensures r.Ok? ==> r.value == context.value
  {
    match context
    case None => Err(OutsideProvider)
    case Some(c) => Ok(c)
  }
}
