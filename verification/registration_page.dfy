/** The registration page: its form, the change handler, and the submit
    handler that checks the repeated password and posts the rest of the
    form to the registration endpoint.

    The POST's outcome is a parameter; navigation is recorded as the path
    the page moves to. */
module RegistrationPage {

  import opened Wrappers
  import opened Gateway
  import Accounts
  import Schema

  datatype Form = Form(email: string, password: string, passwordRepeat: string, groupName: string)

  /** The form's inputs, by their `name` attribute. */
  datatype FieldName = EmailInput | PasswordInput | RepeatInput | GroupSelect

  const DefaultGroup := "User"
  /** The values the group select offers. */
  const OfferedGroups := {"User", "Tenant"}

  const MismatchMessage := "Passwords do not match."
  const FailureMessage := "Registration failed. Please try again."
  const LoginPath := "/login"

  function InitialForm(): (f: Form)
    ensures f.groupName == DefaultGroup && f.groupName in OfferedGroups
    ensures f.email == f.password == f.passwordRepeat == ""
  {
    Form("", "", "", DefaultGroup)
  }

  function Get(f: Form, n: FieldName): string {
    match n
    case EmailInput => f.email
    case PasswordInput => f.password
    case RepeatInput => f.passwordRepeat
    case GroupSelect => f.groupName
  }

  /** `handleChange`: the named field takes the new value. */
  function HandleChange(f: Form, n: FieldName, value: string): (r: Form)
    ensures Get(r, n) == value
    ensures forall m: FieldName | m != n :: Get(r, m) == Get(f, m)
  {
    match n
    case EmailInput => f.(email := value)
    case PasswordInput => f.(password := value)
    case RepeatInput => f.(passwordRepeat := value)
    case GroupSelect => f.(groupName := value)
  }

  /** A change event from the page's own inputs: the select can only
      produce one of its options. */
  predicate FromPage(n: FieldName, value: string) {
    n == GroupSelect ==> value in OfferedGroups
  }

  function ApplyChanges(f: Form, changes: seq<(FieldName, string)>): Form
    decreases |changes|
  {
    if changes == [] then f
    else ApplyChanges(HandleChange(f, changes[0].0, changes[0].1), changes[1..])
  }

  /** Whatever the user types or picks, the group stays one of the
      offered values. */
  lemma {:induction false} GroupStaysOffered(f: Form, changes: seq<(FieldName, string)>)
    requires f.groupName in OfferedGroups
    requires forall i | 0 <= i < |changes| :: FromPage(changes[i].0, changes[i].1)
    ensures ApplyChanges(f, changes).groupName in OfferedGroups
    decreases |changes|
  {
    if changes != [] {
      var g := HandleChange(f, changes[0].0, changes[0].1);
      assert g.groupName == Get(g, GroupSelect);
      GroupStaysOffered(g, changes[1..]);
    }
  }

  /** The body posted: the form without the repeated password. */
  function Payload(f: Form): (body: Accounts.Body)
    ensures body.Keys == {"email", "password", "group_name"}
    ensures body["email"] == f.email && body["password"] == f.password && body["group_name"] == f.groupName
  {
    map["email" := f.email, "password" := f.password, "group_name" := f.groupName]
  }

  datatype PageState = PageState(form: Form, error: string)

  /** What a submit did: the page after it, the body it posted (if it
      posted), and where it navigated (if it did). */
  datatype Submission = Submission(page: PageState, posted: Option<Accounts.Body>, navigatedTo: Option<string>)

  /** `handleSubmit`. */
  function Submit(p: PageState, post: Outcome<Accounts.Body>): (r: Submission)
    // a mismatch is reported and nothing is sent
    ensures p.form.password != p.form.passwordRepeat ==>
      r.posted.None? && r.navigatedTo.None? && r.page == p.(error := MismatchMessage)
    // otherwise the form without the repeated password is posted, once
    ensures p.form.password == p.form.passwordRepeat ==> r.posted == Some(Payload(p.form))
    ensures r.posted.Some? && post.Resolved? ==> r.navigatedTo == Some(LoginPath) && r.page == p
    ensures r.posted.Some? && post.Rejected? ==> r.navigatedTo.None? && r.page == p.(error := FailureMessage)
    // the form itself is never touched
    ensures r.page.form == p.form
  {
    if p.form.password != p.form.passwordRepeat then
      Submission(p.(error := MismatchMessage), None, None)
    else
      match post
      case Resolved(_) => Submission(p, Some(Payload(p.form)), Some(LoginPath))
      case Rejected(_) => Submission(p.(error := FailureMessage), Some(Payload(p.form)), None)
  }

  /** Anything the page posts gets past the endpoint's first, second and
      fourth checks: e-mail and password keys are there, and the group
      name is one of the offered ones, never empty. Only a used e-mail,
      an unknown group or the serializer can refuse it. */
  lemma PagePayloadPassesPresenceChecks(
    db: Schema.Db, f: Form, fieldsValid: Accounts.Body -> bool, storedPhone: Accounts.Body -> string, hash: string -> string)
    requires f.groupName in OfferedGroups
    ensures Accounts.Register(db, Payload(f), fieldsValid, storedPhone, hash) !in
      {Err(Accounts.EmailMissing), Err(Accounts.PasswordMissing), Err(Accounts.GroupNameMissing)}
  {
    var body := Payload(f);
    assert Accounts.Field(body, "group_name") == f.groupName;
  }
}
