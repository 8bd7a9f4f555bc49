/**
 * `POST /api/profile`: a signed-in, non-banned user updates the seven
 * editable columns of their own profile; once approved, the full name and
 * phone are locked.
 */
module ProfileRoute {
  import opened Wrappers
  import opened Accounts

  /** The seven body properties the route destructures. */
  datatype ProfileForm = ProfileForm(
    fullName: Submitted,
    username: Submitted,
    phone: Submitted,
    city: Submitted,
    neighborhood: Submitted,
    country: Submitted,
    avatarUrl: Submitted)

  datatype Rejection = ServerError | NotAuthenticated | ProfileNotFound | Banned | LockedFields | UpdateFailed
  {
    function Status(): int {
      match this
      case ServerError => 500
      case NotAuthenticated => 401
      case ProfileNotFound => 404
      case Banned => 403
      case LockedFields => 400
      case UpdateFailed => 400
    }
  }

  /** `submitted !== stored`: an omitted property is `undefined`, which differs from every stored value, null included. */
  predicate Differs(x: Submitted, stored: Field) {
    x.Absent? || x.v != stored
  }

  /** The column after the update: an omitted property is dropped from the JSON update and leaves the column as it was. */
  function Written(x: Submitted, stored: Field): Field {
    if x.Absent? then stored else x.v
  }

  /** The profile after the update writes the seven submitted columns. */
  function ApplyForm(p: Profile, f: ProfileForm): (r: Profile)
    ensures r.approved == p.approved && r.banned == p.banned && r.isAdmin == p.isAdmin
    ensures f.fullName.Given? ==> r.fullName == f.fullName.v
    ensures f.phone.Given? ==> r.phone == f.phone.v
    ensures f.username.Given? ==> r.username == f.username.v
    ensures f.city.Given? ==> r.city == f.city.v
    ensures f.neighborhood.Given? ==> r.neighborhood == f.neighborhood.v
    ensures f.country.Given? ==> r.country == f.country.v
    ensures f.avatarUrl.Given? ==> r.avatarUrl == f.avatarUrl.v
    ensures f.fullName.Absent? ==> r.fullName == p.fullName
    ensures f.phone.Absent? ==> r.phone == p.phone
    ensures f.username.Absent? ==> r.username == p.username
    ensures f.city.Absent? ==> r.city == p.city
    ensures f.neighborhood.Absent? ==> r.neighborhood == p.neighborhood
    ensures f.country.Absent? ==> r.country == p.country
    ensures f.avatarUrl.Absent? ==> r.avatarUrl == p.avatarUrl
  {
    p.(fullName := Written(f.fullName, p.fullName),
       username := Written(f.username, p.username),
       phone := Written(f.phone, p.phone),
       city := Written(f.city, p.city),
       neighborhood := Written(f.neighborhood, p.neighborhood),
       country := Written(f.country, p.country),
       avatarUrl := Written(f.avatarUrl, p.avatarUrl))
  }

  /**
   * The check chain before the update. `body` is None when the request body
   * is not valid JSON or is JSON `null`: parsing or destructuring it throws
   * and the catch answers 500. Any other body without these properties
   * (`5`, `[]`) reads every property as absent.
   */
  function Check(body: Option<ProfileForm>, session: Session, profiles: map<UserId, Profile>): Result<UserId, Rejection> {
    if body.None? then Err(ServerError)
    else if session.None? then Err(NotAuthenticated)
    else if session.value !in profiles then Err(ProfileNotFound)
    else
      var p := profiles[session.value];
      if p.banned then Err(Banned)
      else if p.approved && (Differs(body.value.fullName, p.fullName) || Differs(body.value.phone, p.phone)) then Err(LockedFields)
      else Ok(session.value)
  }

  /** `POST /api/profile` on the profile table; `updateFails` stands for the update's error. */
  method UpdateProfile(table: ProfileTable, body: Option<ProfileForm>, session: Session, updateFails: bool)
    returns (r: Outcome<Rejection>)
    modifies table
    ensures match Check(body, session, old(table.rows))
      case Err(e) => r == Fail(e) && table.rows == old(table.rows)
      case Ok(id) =>
        if updateFails then r == Fail(UpdateFailed) && table.rows == old(table.rows)
        else r == Pass && table.rows == old(table.rows)[id := ApplyForm(old(table.rows)[id], body.value)]
  {
    var c := Check(body, session, table.rows);
    if c.Err? {
      return Fail(c.error);
    }
    if updateFails {
      return Fail(UpdateFailed);
    }
    var id := c.value;
    table.rows := table.rows[id := ApplyForm(table.rows[id], body.value)];
    r := Pass;
  }

  /** Every refusal is an HTTP error code; only the server error is a 500. */
  lemma StatusCodes()
    ensures forall e: Rejection :: 400 <= e.Status() <= 500
    ensures forall e: Rejection :: e.Status() == 500 <==> e == ServerError
  {
  }

  /** The checks run in order: 500, then 401, then 404, then 403, then 400, and the first failure wins. */
  lemma CheckOrder(body: Option<ProfileForm>, session: Session, profiles: map<UserId, Profile>)
    ensures var r := Check(body, session, profiles);
      && (r == Err(ServerError) <==> body.None?)
      && (r == Err(NotAuthenticated) <==> body.Some? && session.None?)
      && (r == Err(ProfileNotFound) <==> body.Some? && session.Some? && session.value !in profiles)
      && (r == Err(Banned) <==> body.Some? && session.Some? && session.value in profiles && profiles[session.value].banned)
      && (r.Ok? <==> body.Some? && session.Some? && session.value in profiles && !profiles[session.value].banned
                     && !(profiles[session.value].approved
                          && (Differs(body.value.fullName, profiles[session.value].fullName)
                              || Differs(body.value.phone, profiles[session.value].phone))))
  {
  }

  /**
   * For a signed-in, non-banned user with a profile: an approved user is
   * refused exactly when the submitted full name or phone differs from the
   * stored one; an unapproved user may change every column.
   */
  lemma LockedFieldsRule(f: ProfileForm, id: UserId, profiles: map<UserId, Profile>)
    requires id in profiles && !profiles[id].banned
    ensures var p := profiles[id];
      && (Check(Some(f), Some(id), profiles) == Err(LockedFields) <==>
            p.approved && (Differs(f.fullName, p.fullName) || Differs(f.phone, p.phone)))
      && (!p.approved ==> Check(Some(f), Some(id), profiles) == Ok(id))
  {
  }

  /** After a successful update an approved user's full name and phone are what they were. */
  lemma {:induction false} LockedFieldsStay(f: ProfileForm, id: UserId, profiles: map<UserId, Profile>)
    requires Check(Some(f), Some(id), profiles).Ok?
    requires profiles[id].approved
    ensures ApplyForm(profiles[id], f).fullName == profiles[id].fullName
    ensures ApplyForm(profiles[id], f).phone == profiles[id].phone
  {
    var p := profiles[id];
    assert !Differs(f.fullName, p.fullName) && !Differs(f.phone, p.phone);
  }
}
