/** The Person document: a contributor identified by a normalised, unique
    email, with a gender and a role, stamped with its creation time. */
module PersonModel {
  import opened Common
  import opened Text

  datatype Gender = Male | Female | Other

  /** The role enum admits a single value. */
  datatype Role = User

  /** `name` is not declared by the schema; the rename operation reads and
      writes it, so it is kept here as an optional field. */
  datatype Person = Person(id: Id, email: string, gender: Gender, role: Role,
                           name: Option<string>, createdAt: int)

  /** The gender enum check. */
  function ParseGender(g: string): (r: Option<Gender>)
    ensures r.Some? <==> (g == "Male" || g == "Female" || g == "Other")
  {
    if g == "Male" then Some(Male)
    else if g == "Female" then Some(Female)
    else if g == "Other" then Some(Other)
    else None
  }

  /** The role enum check with its default: a missing role becomes "User". */
  function ParseRole(r: Option<string>): (role: Option<Role>)
    ensures role.Some? <==> (r.None? || r.value == "User")
  {
    if r.None? || r.value == "User" then Some(User) else None
  }

  /** What the email setters (`trim`, `lowercase`) and the `required`
      validator leave possible: a non-empty, trimmed, lower-case string. */
  predicate ValidEmail(e: string)
  {
    e != [] && Normalize(e) == e
  }

  predicate Valid(p: Person)
  {
    ValidEmail(p.email)
  }

  /** The unique index on `email`. */
  predicate UniqueEmails(ps: seq<Person>)
  {
    forall i, j :: 0 <= i < j < |ps| ==> ps[i].email != ps[j].email
  }

  /** Creating a Person document at time `now`: the email setters run, then
      the validators (`required` on email and gender, the two enums). */
  function Create(id: Id, email: string, gender: string, role: Option<string>, now: int): (r: Result<Person>)
    ensures r.Ok? <==> Normalize(email) != [] && ParseGender(gender).Some? && ParseRole(role).Some?
    ensures r.Err? ==> r.error == ValidationFailed
    ensures r.Ok? ==> Valid(r.value) && r.value.id == id && r.value.email == Normalize(email)
    ensures r.Ok? ==> r.value.role == User && r.value.name.None? && r.value.createdAt == now
    ensures r.Ok? ==> ((gender == "Male" <==> r.value.gender == Male)
                       && (gender == "Female" <==> r.value.gender == Female))
  {
    var e := Normalize(email);
    NormalizeIdempotent(email);
    match (ParseGender(gender), ParseRole(role))
    case (Some(g), Some(ro)) =>
      if e == [] then Err(ValidationFailed) else Ok(Person(id, e, g, ro, None, now))
    case _ => Err(ValidationFailed)
  }
}
