/**
 * The record shapes of the three tables (users, children, vaccination
 * records), the insert shapes without an id, and the partial updates that a
 * shallow object merge applies. A nullable column is an `Option`; in a partial
 * update an absent key is `None`, so a nullable field there is an
 * `Option<Option<_>>` (absent, set to null, or set to a value).
 */
module Schema {
  import opened Wrappers
  import opened Dates

  datatype User = User(id: int, username: string, password: string, firstName: string, lastName: string, email: string)

  datatype InsertUser = InsertUser(username: string, password: string, firstName: string, lastName: string, email: string)

  datatype Child = Child(id: int, firstName: string, lastName: string, birthDate: Date, gender: Option<string>, userId: int)

  datatype InsertChild = InsertChild(firstName: string, lastName: string, birthDate: Date, gender: Option<string>, userId: int)

  /** `Partial<InsertChild>`. */
  datatype ChildPatch = ChildPatch(
    firstName: Option<string>,
    lastName: Option<string>,
    birthDate: Option<Date>,
    gender: Option<Option<string>>,
    userId: Option<int>)

  /**
   * A vaccination record. `administered` is nullable: `None` stands for null or
   * undefined, which behave like false wherever the flag is tested.
   */
  datatype Vaccination = Vaccination(
    id: int,
    childId: int,
    vaccineName: string,
    scheduledDate: Date,
    administered: Option<bool>,
    administeredDate: Option<Date>,
    notes: Option<string>)

  datatype InsertVaccination = InsertVaccination(
    childId: int,
    vaccineName: string,
    scheduledDate: Date,
    administered: Option<bool>,
    administeredDate: Option<Date>,
    notes: Option<string>)

  /** `Partial<InsertVaccination>`. */
  datatype VaccinationPatch = VaccinationPatch(
    childId: Option<int>,
    vaccineName: Option<string>,
    scheduledDate: Option<Date>,
    administered: Option<Option<bool>>,
    administeredDate: Option<Option<Date>>,
    notes: Option<Option<string>>)

  /** The truthiness test `if (vaccination.administered)`. */
  predicate IsAdministered(v: Vaccination)
  {
    v.administered == Some(true)
  }

  function UserWithId(u: InsertUser, id: int): (r: User)
    ensures r.id == id
    ensures UserFields(r) == u
  {
    User(id, u.username, u.password, u.firstName, u.lastName, u.email)
  }

  function UserFields(u: User): InsertUser
  {
    InsertUser(u.username, u.password, u.firstName, u.lastName, u.email)
  }

  function ChildWithId(c: InsertChild, id: int): (r: Child)
    ensures r.id == id
    ensures ChildFields(r) == c
  {
    Child(id, c.firstName, c.lastName, c.birthDate, c.gender, c.userId)
  }

  function ChildFields(c: Child): InsertChild
  {
    InsertChild(c.firstName, c.lastName, c.birthDate, c.gender, c.userId)
  }

  function VaccinationWithId(v: InsertVaccination, id: int): (r: Vaccination)
    ensures r.id == id
    ensures VaccinationFields(r) == v
  {
    Vaccination(id, v.childId, v.vaccineName, v.scheduledDate, v.administered, v.administeredDate, v.notes)
  }

  function VaccinationFields(v: Vaccination): InsertVaccination
  {
    InsertVaccination(v.childId, v.vaccineName, v.scheduledDate, v.administered, v.administeredDate, v.notes)
  }

  /** `{ ...child, ...patch }`: the id is never in a patch, so it is kept. */
  function MergeChild(c: Child, p: ChildPatch): (r: Child)
    ensures r.id == c.id
  {
    Child(
      c.id,
      p.firstName.GetOr(c.firstName),
      p.lastName.GetOr(c.lastName),
      p.birthDate.GetOr(c.birthDate),
      p.gender.GetOr(c.gender),
      p.userId.GetOr(c.userId))
  }

  /** `{ ...vaccination, ...patch }`. */
  function MergeVaccination(v: Vaccination, p: VaccinationPatch): (r: Vaccination)
    ensures r.id == v.id
  {
    Vaccination(
      v.id,
      p.childId.GetOr(v.childId),
      p.vaccineName.GetOr(v.vaccineName),
      p.scheduledDate.GetOr(v.scheduledDate),
      p.administered.GetOr(v.administered),
      p.administeredDate.GetOr(v.administeredDate),
      p.notes.GetOr(v.notes))
  }

  const EmptyChildPatch := ChildPatch(None, None, None, None, None)

  const EmptyVaccinationPatch := VaccinationPatch(None, None, None, None, None, None)

  /**
   * A merge overwrites exactly the fields the patch supplies: a supplied field takes
   * the patch's value, an absent one keeps the record's.
   */
  lemma MergeChildFields(c: Child, p: ChildPatch)
    ensures var r := MergeChild(c, p);
            && (p.firstName.Some? ==> r.firstName == p.firstName.value) && (p.firstName.None? ==> r.firstName == c.firstName)
            && (p.lastName.Some? ==> r.lastName == p.lastName.value) && (p.lastName.None? ==> r.lastName == c.lastName)
            && (p.birthDate.Some? ==> r.birthDate == p.birthDate.value) && (p.birthDate.None? ==> r.birthDate == c.birthDate)
            && (p.gender.Some? ==> r.gender == p.gender.value) && (p.gender.None? ==> r.gender == c.gender)
            && (p.userId.Some? ==> r.userId == p.userId.value) && (p.userId.None? ==> r.userId == c.userId)
  {
  }

  lemma MergeVaccinationFields(v: Vaccination, p: VaccinationPatch)
    ensures var r := MergeVaccination(v, p);
            && (p.childId.Some? ==> r.childId == p.childId.value) && (p.childId.None? ==> r.childId == v.childId)
            && (p.vaccineName.Some? ==> r.vaccineName == p.vaccineName.value) && (p.vaccineName.None? ==> r.vaccineName == v.vaccineName)
            && (p.scheduledDate.Some? ==> r.scheduledDate == p.scheduledDate.value) && (p.scheduledDate.None? ==> r.scheduledDate == v.scheduledDate)
            && (p.administered.Some? ==> r.administered == p.administered.value) && (p.administered.None? ==> r.administered == v.administered)
            && (p.administeredDate.Some? ==> r.administeredDate == p.administeredDate.value) && (p.administeredDate.None? ==> r.administeredDate == v.administeredDate)
            && (p.notes.Some? ==> r.notes == p.notes.value) && (p.notes.None? ==> r.notes == v.notes)
  {
  }

  /** An empty patch changes nothing, and applying the same patch twice equals applying it once. */
  lemma MergeChildLaws(c: Child, p: ChildPatch)
    ensures MergeChild(c, EmptyChildPatch) == c
    ensures MergeChild(MergeChild(c, p), p) == MergeChild(c, p)
  {
  }

  lemma MergeVaccinationLaws(v: Vaccination, p: VaccinationPatch)
    ensures MergeVaccination(v, EmptyVaccinationPatch) == v
    ensures MergeVaccination(MergeVaccination(v, p), p) == MergeVaccination(v, p)
  {
  }
}
