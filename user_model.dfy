/** The user document's declared constraints and defaults: a trimmed
    username of 3 to 20 characters, a password of at least 8, the farm name
    derived from the username, a starting balance of 1000 that may never go
    below 0, and a role of "user" or "admin". */
module UserModel {
  import opened Common

  const Roles: seq<string> := ["user", "admin"]
  const StartingCurrency: int := 1000

  datatype UserRecord = UserRecord(
    username: string,
    email: string,
    password: string,
    farmName: string,
    currency: int,
    role: string)

  /** The values given to User.create; an empty string is a missing string. */
  datatype UserInput = UserInput(
    username: string,
    email: string,
    password: string,
    farmName: Option<string>,
    currency: Option<int>,
    role: Option<string>)

  datatype UserResult = UserCreated(user: UserRecord) | UserRejected(errors: seq<string>)

  /** The first failing validator of the username path, if any (required, then minlength, then maxlength). */
  function UsernameError(u: string): (e: Option<string>)
    ensures e.None? <==> 3 <= |u| <= 20
  {
    if u == [] then Some("Username is required")
    else if |u| < 3 then Some("Username must be at least 3 characters")
    else if |u| > 20 then Some("Username cannot exceed 20 characters")
    else None
  }

  function PasswordError(p: string): (e: Option<string>)
    ensures e.None? <==> |p| >= 8
  {
    if p == [] then Some("Password is required")
    else if |p| < 8 then Some("Password must be at least 8 characters")
    else None
  }

  function OptionToSeq(e: Option<string>): seq<string> {
    if e.Some? then [e.value] else []
  }

  /** The `farmName` default, computed from the already-trimmed username. */
  function DefaultFarmName(username: string): string {
    username + "'s Farm"
  }

  /** User.create: setters (trim, lowercase) first, then defaults, then the validators.
      The email pattern and the uniqueness indexes are not modelled. */
  function CreateUser(input: UserInput): (r: UserResult)
    ensures r.UserCreated? <==>
      && 3 <= |Trim(input.username)| <= 20
      && Trim(input.email) != ""
      && |input.password| >= 8
      && input.currency.GetOr(StartingCurrency) >= 0
      && input.role.GetOr("user") in Roles
    ensures r.UserCreated? ==>
      && r.user.username == Trim(input.username)
      && r.user.email == ToLower(Trim(input.email))
      && r.user.password == input.password
      && r.user.farmName == (if input.farmName.Some? then Trim(input.farmName.value) else DefaultFarmName(Trim(input.username)))
      && r.user.currency == input.currency.GetOr(StartingCurrency)
      && r.user.role == input.role.GetOr("user")
    ensures r.UserCreated? ==> UserValid(r.user)
    ensures r.UserRejected? ==> r.errors != []
  {
    var username := Trim(input.username);
    var email := ToLower(Trim(input.email));
    var farmName := if input.farmName.Some? then Trim(input.farmName.value) else DefaultFarmName(username);
    var u := UserRecord(username, email, input.password, farmName,
                        input.currency.GetOr(StartingCurrency), input.role.GetOr("user"));
    var errs := UserErrors(u);
    if errs == [] then UserCreated(u) else UserRejected(errs)
  }

  /** The validators' messages for a record whose setters and defaults have run, in schema order. */
  function UserErrors(u: UserRecord): (errs: seq<string>)
    ensures errs == [] <==>
      UsernameError(u.username).None? && u.email != "" && PasswordError(u.password).None?
      && u.currency >= 0 && u.role in Roles
  {
    OptionToSeq(UsernameError(u.username))
    + (if u.email != "" then [] else ["Email is required"])
    + OptionToSeq(PasswordError(u.password))
    + (if u.currency >= 0 then [] else ["currency"])
    + (if u.role in Roles then [] else ["role"])
  }

  /** What every stored user satisfies. */
  predicate UserValid(u: UserRecord) {
    && 3 <= |u.username| <= 20
    && (u.username != [] ==> !IsSpace(u.username[0]) && !IsSpace(u.username[|u.username| - 1]))
    && u.email != ""
    && |u.password| >= 8
    && u.currency >= 0
    && u.role in Roles
  }

  /** A new user with only the required values starts with 1000 coins, the "user" role and
      a farm named after them. */
  lemma NewUserDefaults(name: string, email: string, password: string)
    requires 3 <= |name| <= 20 && !IsSpace(name[0]) && !IsSpace(name[|name| - 1])
    requires Trim(email) != "" && |password| >= 8
    ensures CreateUser(UserInput(name, email, password, None, None, None))
            == UserCreated(UserRecord(name, ToLower(Trim(email)), password, name + "'s Farm", 1000, "user"))
  {
    TrimOfUnpadded(name);
  }
}
