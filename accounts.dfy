/**
 * The `user_profiles` table that the profile, approval, admin and bid routes
 * read, and the JSON values those routes receive in request bodies.
 */
module Accounts {
  import opened Wrappers

  type UserId = string

  /** A nullable text column as stored. */
  datatype Field = Null | Text(s: string)

  /** A property of a parsed JSON request body: missing (`undefined`) or given. */
  datatype Submitted = Absent | Given(v: Field)

  /** JavaScript truthiness of a stored text column: null and "" are falsy. */
  predicate FieldTruthy(f: Field) {
    f.Text? && f.s != ""
  }

  /** JavaScript truthiness of a body property. */
  predicate SubmittedTruthy(x: Submitted) {
    x.Given? && FieldTruthy(x.v)
  }

  /** One row of `user_profiles`. */
  datatype Profile = Profile(
    fullName: Field,
    username: Field,
    phone: Field,
    city: Field,
    neighborhood: Field,
    country: Field,
    avatarUrl: Field,
    approved: bool,
    banned: bool,
    isAdmin: bool)

  /** The signed-in user the auth provider resolves a request to, if any. */
  type Session = Option<UserId>

  /** The `user_profiles` table, which the profile and approval routes update in place. */
  class ProfileTable {
    var rows: map<UserId, Profile>

    constructor (initial: map<UserId, Profile>)
      ensures rows == initial
    {
      rows := initial;
    }
  }
}
