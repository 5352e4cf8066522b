/** The login page: client-side field rules, the credential lookup over the
    fetched user list, and the return path kept in session storage. */
module Login {
  import opened Values
  import opened Patterns
  import opened Text

  /** A stored account as the users endpoint returns it. */
  datatype User = User(fullname: Option<string>, username: Option<string>, email: Option<string>, password: Option<string>)

  /** `u.email === data.email && u.password === data.password` */
  predicate Matches(u: User, email: string, password: string) {
    u.email == Some(email) && u.password == Some(password)
  }

  /** `users.find(...)`: the index of the first user whose e-mail and
      password both match. */
  function FindUser(users: seq<User>, email: string, password: string): (r: Option<nat>)
    ensures r.Some? ==> r.value < |users| && Matches(users[r.value], email, password)
    ensures r.Some? ==> forall j :: 0 <= j < r.value ==> !Matches(users[j], email, password)
    ensures r.None? <==> forall j :: 0 <= j < |users| ==> !Matches(users[j], email, password)
    decreases |users|
  {
    if users == [] then None
    else if Matches(users[0], email, password) then Some(0)
    else match FindUser(users[1..], email, password)
      case None => None
      case Some(i) => Some(i + 1)
  }

  /** What a submit needs: the browser's check of the `type="email"` input,
      then both rules of the form library, the e-mail pattern and the
      password length. */
  predicate FieldsValid(email: string, password: string) {
    BrowserAccepts(email) && CheckEmail(email).None? && CheckPassword(password).None?
  }

  /** The fields pass iff the e-mail is a valid address by both the browser's
      grammar and the pattern, and the password has six or more UTF-16 code
      units. */
  lemma FieldsValidIff(email: string, password: string)
    ensures FieldsValid(email, password) <==>
      IsHtmlEmail(email) && MatchesEmail(email) && Utf16Length(password) >= 6
  {
  }

  const PreviousPathKey: string := "previousPath"
  const Home: string := "/"

  /** `location.state?.from || '/'` */
  function StoredPath(from: Option<string>): (p: string)
    ensures p != ""
    ensures Present(from) ==> p == from.value
    ensures !Present(from) ==> p == Home
  {
    OrElse(from, Some(Home)).value
  }

  /** `sessionStorage.getItem('previousPath') || '/'` */
  function ReturnPath(session: Storage): (p: string)
    ensures p != ""
    ensures PreviousPathKey in session && session[PreviousPathKey] != "" ==> p == session[PreviousPathKey]
    ensures PreviousPathKey in session && session[PreviousPathKey] == "" ==> p == Home
    ensures PreviousPathKey !in session ==> p == Home
  {
    OrElse(GetItem(session, PreviousPathKey), Some(Home)).value
  }

  /** The path stored on mount is the one a later successful login returns to. */
  lemma ReturnToStoredPath(session: Storage, from: Option<string>)
    ensures ReturnPath(session[PreviousPathKey := StoredPath(from)]) == StoredPath(from)
  {
  }

  class LoginPage {
    var session: Storage
    /** The user handed to `login`, once a login has succeeded. */
    var loggedIn: Option<User>
    var navigatedTo: Option<string>
    var notice: Option<string>

    constructor(session0: Storage)
      ensures session == session0 && loggedIn == None && navigatedTo == None && notice == None
    {
      session := session0;
      loggedIn := None;
      navigatedTo := None;
      notice := None;
    }

    /** The effect on mount: remembers where the visitor came from. */
    method Mount(from: Option<string>)
      modifies this
      ensures session == old(session)[PreviousPathKey := StoredPath(from)]
      ensures loggedIn == old(loggedIn) && navigatedTo == old(navigatedTo) && notice == old(notice)
    {
      session := session[PreviousPathKey := StoredPath(from)];
    }

    /** Submitting the form with the fetched user list (or the fetch's failure). */
    method Submit(email: string, password: string, fetched: Response<seq<User>>)
      modifies this
      ensures !FieldsValid(email, password) ==>
        session == old(session) && loggedIn == old(loggedIn) && navigatedTo == old(navigatedTo) && notice == old(notice)
      ensures FieldsValid(email, password) && fetched.Failure? ==>
        session == old(session) && loggedIn == old(loggedIn) && navigatedTo == old(navigatedTo)
        && notice == Some("Login failed")
      ensures FieldsValid(email, password) && fetched.Ok? && FindUser(fetched.body, email, password).None? ==>
        session == old(session) && loggedIn == old(loggedIn) && navigatedTo == old(navigatedTo)
        && notice == Some("Invalid credentials")
      ensures FieldsValid(email, password) && fetched.Ok? && FindUser(fetched.body, email, password).Some? ==>
        loggedIn == Some(fetched.body[FindUser(fetched.body, email, password).value])
        && navigatedTo == Some(ReturnPath(old(session)))
        && session == old(session) - {PreviousPathKey}
        && notice == Some("Login successful")
    {
      if !FieldsValid(email, password) {
        return;
      }
      match fetched {
        case Failure(_) =>
          notice := Some("Login failed");
        case Ok(users) =>
          var found := FindUser(users, email, password);
          if found.Some? {
            Admit(users[found.value]);
          } else {
            notice := Some("Invalid credentials");
          }
      }
    }

    /** The matching user is logged in and sent back where they came from. */
    method Admit(user: User)
      modifies this
      ensures loggedIn == Some(user) && navigatedTo == Some(ReturnPath(old(session)))
      ensures session == old(session) - {PreviousPathKey} && notice == Some("Login successful")
    {
      loggedIn := Some(user);
      notice := Some("Login successful");
      var target := ReturnPath(session);
      session := session - {PreviousPathKey};
      navigatedTo := Some(target);
    }
  }
}
