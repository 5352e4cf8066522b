/** The sign-up page: the four required fields, the duplicate-e-mail check
    and the record posted for a new account. */
module Signup {
  import opened Values
  import opened Patterns
  import opened Login
  import opened Text

  datatype SignupForm = SignupForm(fullname: string, username: string, email: string, password: string)

  /** The browser's check of the `type="email"` input, then the form
      library's rules: every field is required, the e-mail must match the
      pattern and the password must have at least six UTF-16 code units. */
  predicate Valid(v: SignupForm) {
    BrowserAccepts(v.email)
    && CheckRequired(v.fullname).None? && CheckRequired(v.username).None?
    && CheckEmail(v.email).None? && CheckPassword(v.password).None?
  }

  lemma ValidIff(v: SignupForm)
    ensures Valid(v) <==>
      (v.fullname != "" && v.username != "" && IsHtmlEmail(v.email)
       && MatchesEmail(v.email) && Utf16Length(v.password) >= 6)
  {
  }

  /** The record posted for creation: the four form fields and nothing else. */
  function NewAccount(v: SignupForm): (u: User)
    ensures u.fullname == Some(v.fullname) && u.username == Some(v.username)
    ensures u.email == Some(v.email) && u.password == Some(v.password)
  {
    User(Some(v.fullname), Some(v.username), Some(v.email), Some(v.password))
  }

  /** `error.response?.data?.message || "Failed to sign up"`: the server's
      message when it sent a non-empty one, the fixed text otherwise. */
  function ServerMessage(m: Option<string>): (r: string)
    ensures Present(m) ==> r == m.value
    ensures !Present(m) ==> r == "Failed to sign up"
  {
    OrElse(m, Some("Failed to sign up")).value
  }

  datatype Outcome = Invalid | AlreadyRegistered | Created(account: User) | Failed(message: string)

  /** Submitting the form, given the answer to the lookup by e-mail and the
      answer to the creating POST. */
  function Submit(v: SignupForm, lookup: Response<seq<User>>, post: Response<()>): (r: Outcome)
    ensures r == Invalid <==> !Valid(v)
    ensures r == AlreadyRegistered <==> Valid(v) && lookup.Ok? && |lookup.body| > 0
    ensures r.Created? <==> Valid(v) && lookup == Ok([]) && post.Ok?
    ensures r.Created? ==> r.account == NewAccount(v)
    ensures r.Failed? ==> Valid(v) && (lookup.Failure? || (lookup == Ok([]) && post.Failure?))
    ensures r.Failed? ==> r.message != ""
    ensures Valid(v) && lookup.Failure? ==> r == Failed(ServerMessage(lookup.message))
    ensures Valid(v) && lookup == Ok([]) && post.Failure? ==> r == Failed(ServerMessage(post.message))
  {
    if !Valid(v) then Invalid
    else match lookup
      case Failure(m) => Failed(ServerMessage(m))
      case Ok(found) =>
        if |found| > 0 then AlreadyRegistered
        else match post
          case Failure(m) => Failed(ServerMessage(m))
          case Ok(_) => Created(NewAccount(v))
  }

  /** Once the new account is stored, logging in with the same e-mail and
      password passes the client rules and finds an account with that e-mail. */
  lemma {:induction false} CreatedAccountCanLogIn(users: seq<User>, v: SignupForm, post: Response<()>)
    requires Submit(v, Ok([]), post).Created?
    ensures FieldsValid(v.email, v.password)
    ensures FindUser(users + [NewAccount(v)], v.email, v.password).Some?
    ensures (users + [NewAccount(v)])[FindUser(users + [NewAccount(v)], v.email, v.password).value].email == Some(v.email)
  {
    var all := users + [NewAccount(v)];
    assert Matches(all[|users|], v.email, v.password);
  }
}
