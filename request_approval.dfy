/**
 * `POST /api/request-approval`: a signed-in, non-banned, not yet approved
 * user with a complete profile asks to be reviewed; the route writes
 * `approved = false`.
 */
module RequestApproval {
  import opened Wrappers
  import opened Accounts

  datatype Rejection = NotAuthenticated | ProfileNotFound | Banned | AlreadyApproved | IncompleteProfile | UpdateFailed
  {
    function Status(): int {
      match this
      case NotAuthenticated => 401
      case ProfileNotFound => 404
      case Banned => 403
      case AlreadyApproved => 400
      case IncompleteProfile => 400
      case UpdateFailed => 400
    }
  }

  /** A required column is null or empty; `country` is not required. */
  predicate Incomplete(p: Profile) {
    || !FieldTruthy(p.fullName)
    || !FieldTruthy(p.username)
    || !FieldTruthy(p.phone)
    || !FieldTruthy(p.city)
    || !FieldTruthy(p.neighborhood)
  }

  function Check(session: Session, profiles: map<UserId, Profile>): Result<UserId, Rejection> {
    if session.None? then Err(NotAuthenticated)
    else if session.value !in profiles then Err(ProfileNotFound)
    else
      var p := profiles[session.value];
      if p.banned then Err(Banned)
      else if p.approved then Err(AlreadyApproved)
      else if Incomplete(p) then Err(IncompleteProfile)
      else Ok(session.value)
  }

  /** `POST /api/request-approval` on the profile table; `updateFails` stands for the update's error. */
  method Request(table: ProfileTable, session: Session, updateFails: bool) returns (r: Outcome<Rejection>)
    modifies table
    ensures match Check(session, old(table.rows))
      case Err(e) => r == Fail(e) && table.rows == old(table.rows)
      case Ok(id) =>
        if updateFails then r == Fail(UpdateFailed) && table.rows == old(table.rows)
        else r == Pass && table.rows == old(table.rows)[id := old(table.rows)[id].(approved := false)]
    ensures table.rows == old(table.rows)
  {
    var c := Check(session, table.rows);
    if c.Err? {
      return Fail(c.error);
    }
    if updateFails {
      return Fail(UpdateFailed);
    }
    var id := c.value;
    ApprovalWriteChangesNothing(session, table.rows);
    table.rows := table.rows[id := table.rows[id].(approved := false)];
    r := Pass;
  }

  /** Every refusal is a client error code. */
  lemma StatusCodes()
    ensures forall e: Rejection :: 400 <= e.Status() < 500
  {
  }

  /** The checks run in order and the first failure wins. */
  lemma CheckOrder(session: Session, profiles: map<UserId, Profile>)
    ensures var r := Check(session, profiles);
      && (r == Err(NotAuthenticated) <==> session.None?)
      && (r == Err(ProfileNotFound) <==> session.Some? && session.value !in profiles)
      && (r == Err(Banned) <==> session.Some? && session.value in profiles && profiles[session.value].banned)
      && (r == Err(AlreadyApproved) <==>
            session.Some? && session.value in profiles && !profiles[session.value].banned && profiles[session.value].approved)
      && (r == Err(IncompleteProfile) <==>
            session.Some? && session.value in profiles && !profiles[session.value].banned
            && !profiles[session.value].approved && Incomplete(profiles[session.value]))
      && (r.Ok? <==>
            session.Some? && session.value in profiles && !profiles[session.value].banned
            && !profiles[session.value].approved && !Incomplete(profiles[session.value]))
  {
  }

  /** The country column plays no part in the decision. */
  lemma CountryNotRequired(session: Session, profiles: map<UserId, Profile>, id: UserId, country: Field)
    requires id in profiles
    ensures Check(session, profiles[id := profiles[id].(country := country)]) == Check(session, profiles)
  {
  }

  /**
   * A request that passes the checks writes `approved = false` onto a row
   * whose `approved` is already false: the write never grants approval and
   * leaves the row exactly as it was.
   */
  lemma ApprovalWriteChangesNothing(session: Session, profiles: map<UserId, Profile>)
    requires Check(session, profiles).Ok?
    ensures var id := Check(session, profiles).value;
      && id in profiles && !profiles[id].approved
      && profiles[id := profiles[id].(approved := false)] == profiles
  {
  }
}
