/**
 * `POST /api/admin/auctions/create`: the shared admin check, the required
 * fields, and the draft event row inserted with its defaults.
 */
module AdminCreate {
  import opened Wrappers
  import opened Accounts

  datatype AdminRejection = NotAuthenticated | ProfileNotFound | Banned | NotAdmin
  {
    function Status(): int {
      match this
      case NotAuthenticated => 401
      case ProfileNotFound => 404
      case Banned => 403
      case NotAdmin => 403
    }
  }

  /** `getAdmin`: the caller's profile when they are a non-banned admin. */
  function GetAdmin(session: Session, profiles: map<UserId, Profile>): Result<Profile, AdminRejection> {
    if session.None? then Err(NotAuthenticated)
    else if session.value !in profiles then Err(ProfileNotFound)
    else if profiles[session.value].banned then Err(Banned)
    else if !profiles[session.value].isAdmin then Err(NotAdmin)
    else Ok(profiles[session.value])
  }

  /** The body properties the route destructures; `images` is None when absent or null. */
  datatype CreateForm = CreateForm(
    name: Submitted,
    description: Submitted,
    startsAt: Submitted,
    endsAt: Submitted,
    images: Option<seq<string>>)

  datatype CreateRejection =
    | Forbidden(reason: AdminRejection)
    | MalformedBody
    | MissingFields
    | InsertFailed
  {
    function Status(): int {
      match this
      case Forbidden(reason) => reason.Status()
      case MalformedBody => 500
      case MissingFields => 400
      case InsertFailed => 500
    }
  }

  const DRAFT: string := "draft"

  /** The `auction_events` row the route inserts. */
  datatype NewEvent = NewEvent(name: string, description: string, startsAt: string, endsAt: string,
                               images: seq<string>, status: string)

  /** `x || ""` for a text property. */
  function TextOr(x: Submitted, default: string): string {
    if SubmittedTruthy(x) then x.v.s else default
  }

  /**
   * The decision and the row to insert. `body` is None when the request body
   * is not valid JSON or is JSON `null`: parsing or destructuring it throws
   * outside any catch and the framework answers 500. Any other body without
   * these properties (`5`, `[]`) reads every property as absent.
   */
  function Plan(session: Session, profiles: map<UserId, Profile>, body: Option<CreateForm>): Result<NewEvent, CreateRejection> {
    var admin := GetAdmin(session, profiles);
    if admin.Err? then Err(Forbidden(admin.error))
    else if body.None? then Err(MalformedBody)
    else
      var f := body.value;
      if !SubmittedTruthy(f.name) || !SubmittedTruthy(f.startsAt) || !SubmittedTruthy(f.endsAt) then Err(MissingFields)
      else Ok(NewEvent(f.name.v.s, TextOr(f.description, ""), f.startsAt.v.s, f.endsAt.v.s,
                       if f.images.Some? then f.images.value else [], DRAFT))
  }

  /** The `auction_events` table the route inserts into. */
  class EventTable {
    var rows: seq<NewEvent>

    constructor (initial: seq<NewEvent>)
      ensures rows == initial
    {
      rows := initial;
    }
  }

  /** `POST /api/admin/auctions/create`; `insertFails` stands for the insert's error. */
  method Create(table: EventTable, session: Session, profiles: map<UserId, Profile>, body: Option<CreateForm>,
                insertFails: bool)
    returns (r: Result<NewEvent, CreateRejection>)
    modifies table
    ensures match Plan(session, profiles, body)
      case Err(e) => r == Err(e) && table.rows == old(table.rows)
      case Ok(row) =>
        if insertFails then r == Err(InsertFailed) && table.rows == old(table.rows)
        else r == Ok(row) && table.rows == old(table.rows) + [row]
  {
    var p := Plan(session, profiles, body);
    if p.Err? {
      return Err(p.error);
    }
    if insertFails {
      return Err(InsertFailed);
    }
    table.rows := table.rows + [p.value];
    r := Ok(p.value);
  }

  /** Every refusal is an HTTP error code; a malformed body and a failed insert are the 500s. */
  lemma StatusCodes()
    ensures forall e: CreateRejection :: 400 <= e.Status() <= 500
    ensures forall e: CreateRejection :: e.Status() == 500 <==> e == MalformedBody || e == InsertFailed
    ensures forall e: AdminRejection :: 401 <= e.Status() <= 404
  {
  }

  /** Only a signed-in, non-banned admin passes, and the checks run in order 401, 404, 403, 403. */
  lemma AdminCheckOrder(session: Session, profiles: map<UserId, Profile>)
    ensures var r := GetAdmin(session, profiles);
      && (r.Ok? <==> session.Some? && session.value in profiles && !profiles[session.value].banned
                     && profiles[session.value].isAdmin)
      && (r == Err(NotAuthenticated) <==> session.None?)
      && (r == Err(ProfileNotFound) <==> session.Some? && session.value !in profiles)
      && (r == Err(Banned) <==> session.Some? && session.value in profiles && profiles[session.value].banned)
      && (r == Err(NotAdmin) <==> session.Some? && session.value in profiles && !profiles[session.value].banned
                                  && !profiles[session.value].isAdmin)
  {
  }

  /** A caller who is not an admin is refused whatever the body holds, malformed or not. */
  lemma AdminCheckedBeforeBody(session: Session, profiles: map<UserId, Profile>, b1: Option<CreateForm>, b2: Option<CreateForm>)
    requires GetAdmin(session, profiles).Err?
    ensures Plan(session, profiles, b1) == Plan(session, profiles, b2) == Err(Forbidden(GetAdmin(session, profiles).error))
  {
  }

  /**
   * For an admin with a parsed body: a missing name, start or end is
   * refused; otherwise the row is a draft with the given name and times, the
   * description defaults to "" and the images to [], and no order between
   * start and end is demanded.
   */
  lemma InsertedRow(session: Session, profiles: map<UserId, Profile>, f: CreateForm)
    requires GetAdmin(session, profiles).Ok?
    ensures var r := Plan(session, profiles, Some(f));
      && (r == Err(MissingFields) <==>
            !SubmittedTruthy(f.name) || !SubmittedTruthy(f.startsAt) || !SubmittedTruthy(f.endsAt))
      && (r.Ok? <==> SubmittedTruthy(f.name) && SubmittedTruthy(f.startsAt) && SubmittedTruthy(f.endsAt))
      && (r.Ok? ==>
            && r.value.status == DRAFT
            && r.value.name == f.name.v.s && r.value.startsAt == f.startsAt.v.s && r.value.endsAt == f.endsAt.v.s
            && (SubmittedTruthy(f.description) ==> r.value.description == f.description.v.s)
            && (!SubmittedTruthy(f.description) ==> r.value.description == "")
            && (f.images.None? ==> r.value.images == [])
            && (f.images.Some? ==> r.value.images == f.images.value))
  {
  }
}
