/**
 * The client's Profile page: the signed-in user's own name, e-mail and
 * password, loaded from the profile details and sent back as an update.
 */
module ProfilePage {
  import opened Wrappers
  import opened FormRules
  import Text

  /** The user record the details request answers with (its password only if the server includes one). */
  datatype ProfileRecord = ProfileRecord(id: string, name: Option<string>, email: Option<string>, password: Option<string>)

  /** The update body; `password` is `None` when the key is absent. */
  datatype ProfilePayload = ProfilePayload(name: Option<string>, email: Option<string>, password: Option<string>)

  datatype ProfileSubmission =
    | Rejected(messages: seq<string>)
    | Update(id: Option<string>, payload: ProfilePayload)

  /** The messages shown instead of submitting: name required, then the e-mail rules. */
  function Problems(name: Option<string>, email: Option<string>): (ms: seq<string>)
    ensures ms == [] <==> Filled(name) && Filled(email) && Text.EmailShape(email.value)
    ensures !Filled(name) ==> "Name is required" in ms
    ensures !Filled(email) ==> "Email is required" in ms
    ensures Filled(email) && !Text.EmailShape(email.value) ==> "Invalid email format" in ms
  {
    var es := [NameError(name), EmailError(email)];
    assert es[0] == NameError(name) && es[1] == EmailError(email);
    Messages(es)
  }

  /**
   * Submitting: the messages when a rule fails; otherwise an update of the
   * loaded user that always carries the name and e-mail, and carries the
   * password only when the field is non-empty ("leave unchanged to keep
   * your existing password").
   */
  function SubmitSpec(userId: Option<string>, name: Option<string>, email: Option<string>, password: Option<string>): (s: ProfileSubmission)
    ensures s.Update? <==> Filled(name) && Filled(email) && Text.EmailShape(email.value)
    ensures s.Rejected? ==> s.messages == Problems(name, email) && s.messages != []
    ensures s.Update? ==> s.id == userId && s.payload.name == name && s.payload.email == email
    ensures s.Update? ==> (s.payload.password.Some? <==> Filled(password))
    ensures s.Update? && s.payload.password.Some? ==> s.payload.password == password
  {
    if Problems(name, email) != [] then Rejected(Problems(name, email))
    else Update(userId, ProfilePayload(name, email, if Filled(password) then password else None))
  }

  /** What the user types. */
  datatype ProfileInput =
    | EnterName(name: string)
    | EnterEmail(email: string)
    | EnterPassword(password: string)

  /** The page's state: whether it still loads, whose profile it is, and the field values. */
  class ProfileForm {
    var loading: bool
    var userId: Option<string>
    var name: Option<string>
    var email: Option<string>
    var password: Option<string>

    constructor()
      ensures loading && userId.None?
      ensures name.None? && email.None? && password.None?
    {
      loading := true;
      userId := None;
      name, email, password := None, None, None;
    }

    /**
     * The details arrive (`data[0]`, if any): the id, name and e-mail are
     * taken over and the password field gets the record's password or "".
     * With no record, as after a failed request, only the spinner stops.
     */
    method Load(details: seq<ProfileRecord>)
      modifies this
      ensures !loading
      ensures details == [] ==> userId == old(userId) && name == old(name) && email == old(email) && password == old(password)
      ensures details != [] ==> userId == Some(details[0].id) && name == details[0].name && email == details[0].email
      ensures details != [] ==> password == Some(if Filled(details[0].password) then details[0].password.value else "")
    {
      if details != [] {
        var user := details[0];
        userId := Some(user.id);
        name := user.name;
        email := user.email;
        password := Some(if Filled(user.password) then user.password.value else "");
      }
      loading := false;
    }

    /** Typing into a field changes that field alone. */
    method Enter(c: ProfileInput)
      modifies this
      ensures loading == old(loading) && userId == old(userId)
      ensures name == (if c.EnterName? then Some(c.name) else old(name))
      ensures email == (if c.EnterEmail? then Some(c.email) else old(email))
      ensures password == (if c.EnterPassword? then Some(c.password) else old(password))
    {
      match c
      case EnterName(s) => name := Some(s);
      case EnterEmail(s) => email := Some(s);
      case EnterPassword(s) => password := Some(s);
    }

    /** `onSubmit`: the body starts with name and e-mail and gains the password if one was entered. */
    method OnSubmit() returns (s: ProfileSubmission)
      ensures s == SubmitSpec(userId, name, email, password)
    {
      var problems := Problems(name, email);
      if problems != [] {
        return Rejected(problems);
      }
      var payload := ProfilePayload(name, email, None);
      if Filled(password) {
        payload := payload.(password := password);
      }
      s := Update(userId, payload);
    }
  }

  /**
   * Loading the profile and submitting it untouched sends the record's own
   * name and e-mail, and sends back as the new password whatever non-empty
   * password the details carried; without one the stored password is kept.
   */
  lemma LoadThenSubmit(u: ProfileRecord)
    requires Filled(u.name) && Filled(u.email) && Text.EmailShape(u.email.value)
    ensures var s := SubmitSpec(Some(u.id), u.name, u.email, Some(if Filled(u.password) then u.password.value else ""));
      s == Update(Some(u.id), ProfilePayload(u.name, u.email, if Filled(u.password) then u.password else None))
  {
  }
}
