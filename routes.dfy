/**
 * The REST handlers over the store. Every handler runs the same ordered
 * decision: no session user gives 401; then an id that does not parse as an
 * integer gives 400; then a missing record gives 404; then a record that
 * belongs to another user gives 403; then a request body that fails validation
 * gives 400; only then does the handler read or change the store. Requests are
 * given already decoded: the session user, the integer path parameter (`None`
 * when `parseInt` gives NaN) and the body fields (`None` for an absent field).
 */
module Routes {
  import opened Wrappers
  import opened Dates
  import opened Schema
  import opened Storage

  /** A JSON response body; validation errors are not modelled beyond their presence. */
  datatype Body =
    | Message(text: string)
    | ValidationErrors
    | ChildRecord(child: Child)
    | ChildList(children: seq<Child>)
    | VaccinationRecord(vaccination: Vaccination)
    | VaccinationList(vaccinations: seq<Vaccination>)
    | DashboardData(firstName: string, lastName: string, childCount: int, upcomingVaccinations: seq<UpcomingVaccination>)
    | NoContent

  datatype Response = Response(status: int, body: Body)

  const Unauthorized := Response(401, Message("Unauthorized"))
  const InvalidBody := Response(400, ValidationErrors)

  /** Days ahead covered by the dashboard's upcoming list. */
  const DashboardDays := 30

  /**
   * A date-valued string field: empty, rejected by `Date.parse`, or a date. The
   * store keeps the date; an empty administered date is kept as no date, which
   * every reader treats the same way.
   */
  datatype DateText = Blank | Malformed | DateValue(date: Date)

  /** The body of a child create or update request. */
  datatype ChildBody = ChildBody(
    firstName: Option<string>,
    lastName: Option<string>,
    birthDate: Option<DateText>,
    gender: Option<string>)

  /** The body of a vaccination create or update request. */
  datatype VaccinationBody = VaccinationBody(
    vaccineName: Option<string>,
    scheduledDate: Option<DateText>,
    administered: Option<bool>,
    administeredDate: Option<DateText>,
    notes: Option<string>)

  predicate NonEmpty(f: Option<string>)
  {
    f.Some? && |f.value| > 0
  }

  /** An optional field that, when present, is a non-empty string. */
  predicate OptionalNonEmpty(f: Option<string>)
  {
    f.None? || |f.value| > 0
  }

  /** An optional administered-date field: absent, empty, or a date. */
  predicate OptionalDateOrBlank(f: Option<DateText>)
  {
    f.None? || !f.value.Malformed?
  }

  /** The stored administered date: a parsed date, or none for an absent or empty field. */
  function DateOrBlank(f: Option<DateText>): (r: Option<Date>)
    ensures r.Some? <==> f.Some? && f.value.DateValue?
    ensures r.Some? ==> r.value == f.value.date
  {
    if f.Some? && f.value.DateValue? then Some(f.value.date) else None
  }

  /**
   * The create-child schema applied to the body with `userId` from the session
   * spread over it: the session user always owns the new child.
   */
  function ParseNewChild(body: ChildBody, userId: int): (r: Option<InsertChild>)
    ensures r.Some? <==> NonEmpty(body.firstName) && NonEmpty(body.lastName)
                         && body.birthDate.Some? && body.birthDate.value.DateValue?
    ensures r.Some? ==>
      && r.value.userId == userId
      && r.value.firstName == body.firstName.value
      && r.value.lastName == body.lastName.value
      && r.value.birthDate == body.birthDate.value.date
      && r.value.gender == body.gender
  {
    if NonEmpty(body.firstName) && NonEmpty(body.lastName) && body.birthDate.Some? && body.birthDate.value.DateValue? then
      Some(InsertChild(body.firstName.value, body.lastName.value, body.birthDate.value.date, body.gender, userId))
    else None
  }

  /**
   * The update-child schema: every field optional, names non-empty when given,
   * birth date a date when given. It has no `userId`, so a patch never changes
   * the owner.
   */
  function ParseChildPatch(body: ChildBody): (r: Option<ChildPatch>)
    ensures r.Some? <==> OptionalNonEmpty(body.firstName) && OptionalNonEmpty(body.lastName)
                         && (body.birthDate.None? || body.birthDate.value.DateValue?)
    ensures r.Some? ==> r.value.userId.None?
    ensures r.Some? ==> r.value.firstName == body.firstName && r.value.lastName == body.lastName
    ensures r.Some? ==> (r.value.birthDate.Some? <==> body.birthDate.Some?)
    ensures r.Some? && body.birthDate.Some? ==> r.value.birthDate.value == body.birthDate.value.date
    ensures r.Some? ==> (r.value.gender.Some? <==> body.gender.Some?)
    ensures r.Some? && body.gender.Some? ==> r.value.gender.value == body.gender
  {
    if OptionalNonEmpty(body.firstName) && OptionalNonEmpty(body.lastName)
       && (body.birthDate.None? || body.birthDate.value.DateValue?) then
      Some(ChildPatch(
        body.firstName,
        body.lastName,
        if body.birthDate.Some? then Some(body.birthDate.value.date) else None,
        if body.gender.Some? then Some(Some(body.gender.value)) else None,
        None))
    else None
  }

  /** The create-vaccination schema with `childId` from the path spread over the body. */
  function ParseNewVaccination(body: VaccinationBody, childId: int): (r: Option<InsertVaccination>)
    ensures r.Some? <==> NonEmpty(body.vaccineName) && body.scheduledDate.Some? && body.scheduledDate.value.DateValue?
                         && OptionalDateOrBlank(body.administeredDate)
    ensures r.Some? ==>
      && r.value.childId == childId
      && r.value.vaccineName == body.vaccineName.value
      && r.value.scheduledDate == body.scheduledDate.value.date
      && r.value.administered == body.administered
      && r.value.administeredDate == DateOrBlank(body.administeredDate)
      && r.value.notes == body.notes
  {
    if NonEmpty(body.vaccineName) && body.scheduledDate.Some? && body.scheduledDate.value.DateValue?
       && OptionalDateOrBlank(body.administeredDate) then
      Some(InsertVaccination(childId, body.vaccineName.value, body.scheduledDate.value.date,
                             body.administered, DateOrBlank(body.administeredDate), body.notes))
    else None
  }

  /** The update-vaccination schema. It has no `childId`, so a patch never moves a record to another child. */
  function ParseVaccinationPatch(body: VaccinationBody): (r: Option<VaccinationPatch>)
    ensures r.Some? <==> OptionalNonEmpty(body.vaccineName)
                         && (body.scheduledDate.None? || body.scheduledDate.value.DateValue?)
                         && OptionalDateOrBlank(body.administeredDate)
    ensures r.Some? ==> r.value.childId.None?
    ensures r.Some? ==> r.value.vaccineName == body.vaccineName
    ensures r.Some? ==> (r.value.scheduledDate.Some? <==> body.scheduledDate.Some?)
    ensures r.Some? && body.scheduledDate.Some? ==> r.value.scheduledDate.value == body.scheduledDate.value.date
    ensures r.Some? ==> (r.value.administered.Some? <==> body.administered.Some?)
    ensures r.Some? && body.administered.Some? ==> r.value.administered.value == body.administered
    ensures r.Some? ==> (r.value.administeredDate.Some? <==> body.administeredDate.Some?)
    ensures r.Some? && body.administeredDate.Some? ==> r.value.administeredDate.value == DateOrBlank(body.administeredDate)
    ensures r.Some? ==> (r.value.notes.Some? <==> body.notes.Some?)
    ensures r.Some? && body.notes.Some? ==> r.value.notes.value == body.notes
  {
    if OptionalNonEmpty(body.vaccineName)
       && (body.scheduledDate.None? || body.scheduledDate.value.DateValue?)
       && OptionalDateOrBlank(body.administeredDate) then
      Some(VaccinationPatch(
        None,
        body.vaccineName,
        if body.scheduledDate.Some? then Some(body.scheduledDate.value.date) else None,
        if body.administered.Some? then Some(Some(body.administered.value)) else None,
        if body.administeredDate.Some? then Some(DateOrBlank(body.administeredDate)) else None,
        if body.notes.Some? then Some(Some(body.notes.value)) else None))
    else None
  }

  /** Updates through the routes never change who owns a child or which child a record belongs to. */
  lemma PatchesKeepOwnership(c: Child, cb: ChildBody, v: Vaccination, vb: VaccinationBody)
    ensures ParseChildPatch(cb).Some? ==> MergeChild(c, ParseChildPatch(cb).value).userId == c.userId
    ensures ParseVaccinationPatch(vb).Some? ==> MergeVaccination(v, ParseVaccinationPatch(vb).value).childId == v.childId
  {
  }

  /** An accepted PUT body gives a child each field the body supplies and keeps every other field. */
  lemma ChildPutWrites(c: Child, body: ChildBody)
    ensures ParseChildPatch(body).Some? ==>
      var r := MergeChild(c, ParseChildPatch(body).value);
      && r.id == c.id && r.userId == c.userId
      && r.firstName == (if body.firstName.Some? then body.firstName.value else c.firstName)
      && r.lastName == (if body.lastName.Some? then body.lastName.value else c.lastName)
      && r.birthDate == (if body.birthDate.Some? then body.birthDate.value.date else c.birthDate)
      && r.gender == (if body.gender.Some? then body.gender else c.gender)
  {
    if ParseChildPatch(body).Some? {
      MergeChildFields(c, ParseChildPatch(body).value);
    }
  }

  /** An accepted PUT body gives a record each field the body supplies and keeps every other field. */
  lemma VaccinationPutWrites(v: Vaccination, body: VaccinationBody)
    ensures ParseVaccinationPatch(body).Some? ==>
      var r := MergeVaccination(v, ParseVaccinationPatch(body).value);
      && r.id == v.id && r.childId == v.childId
      && r.vaccineName == (if body.vaccineName.Some? then body.vaccineName.value else v.vaccineName)
      && r.scheduledDate == (if body.scheduledDate.Some? then body.scheduledDate.value.date else v.scheduledDate)
      && r.administered == (if body.administered.Some? then body.administered else v.administered)
      && r.administeredDate == (if body.administeredDate.Some? then DateOrBlank(body.administeredDate) else v.administeredDate)
      && r.notes == (if body.notes.Some? then body.notes else v.notes)
  {
    if ParseVaccinationPatch(body).Some? {
      MergeVaccinationFields(v, ParseVaccinationPatch(body).value);
    }
  }

  /**
   * The guard of the child-by-id routes and of the routes under a child: the
   * first failing check, in the order 401, 400, 404, 403, decides the answer;
   * `None` lets the handler go on.
   */
  function ChildGuard(session: Option<User>, childId: Option<int>, children: map<int, Child>, forbidden: string): (r: Option<Response>)
    ensures session.None? ==> r == Some(Unauthorized)
    ensures r.Some? && r.value.status == 400 <==> session.Some? && childId.None?
    ensures r.Some? && r.value.status == 404 <==> session.Some? && childId.Some? && childId.value !in children
    ensures r.Some? && r.value.status == 403 <==>
      session.Some? && childId.Some? && childId.value in children && children[childId.value].userId != session.value.id
    ensures r.None? <==>
      session.Some? && childId.Some? && childId.value in children && children[childId.value].userId == session.value.id
  {
    if session.None? then Some(Unauthorized)
    else if childId.None? then Some(Response(400, Message("Invalid child ID")))
    else if childId.value !in children then Some(Response(404, Message("Child not found")))
    else if children[childId.value].userId != session.value.id then Some(Response(403, Message(forbidden)))
    else None
  }

  /**
   * The guard of the vaccination-by-id routes: a missing record is 404, but a
   * record whose child is missing or belongs to someone else is 403.
   */
  function VaccinationGuard(session: Option<User>, id: Option<int>, vaccinations: map<int, Vaccination>, children: map<int, Child>): (r: Option<Response>)
    ensures session.None? ==> r == Some(Unauthorized)
    ensures r.Some? && r.value.status == 400 <==> session.Some? && id.None?
    ensures r.Some? && r.value.status == 404 <==> session.Some? && id.Some? && id.value !in vaccinations
    ensures r.Some? && r.value.status == 403 <==>
      && session.Some? && id.Some? && id.value in vaccinations
      && (vaccinations[id.value].childId !in children || children[vaccinations[id.value].childId].userId != session.value.id)
    ensures r.None? <==>
      && session.Some? && id.Some? && id.value in vaccinations
      && vaccinations[id.value].childId in children && children[vaccinations[id.value].childId].userId == session.value.id
  {
    if session.None? then Some(Unauthorized)
    else if id.None? then Some(Response(400, Message("Invalid vaccination ID")))
    else if id.value !in vaccinations then Some(Response(404, Message("Vaccination not found")))
    else
      var childId := vaccinations[id.value].childId;
      if childId !in children || children[childId].userId != session.value.id then
        Some(Response(403, Message("Unauthorized access to this vaccination")))
      else None
  }

  const ChildForbidden := "Unauthorized access to this child"
  const ChildVaccinationsForbidden := "Unauthorized access to this child's vaccinations"

  /** `GET /api/children`. */
  method ListChildren(s: MemStorage, session: Option<User>) returns (resp: Response)
    requires s.Valid()
    ensures session.None? ==> resp == Unauthorized
    ensures session.Some? ==> resp == Response(200, ChildList(s.ChildrenOf(session.value.id)))
  {
    if session.None? {
      return Unauthorized;
    }
    var children := s.GetChildren(session.value.id);
    resp := Response(200, ChildList(children));
  }

  /** `POST /api/children`. */
  method CreateChildRoute(s: MemStorage, session: Option<User>, body: ChildBody) returns (resp: Response)
    requires s.Valid()
    modifies s
    ensures s.Valid()
    ensures session.None? ==> resp == Unauthorized && unchanged(s)
    ensures session.Some? && ParseNewChild(body, session.value.id).None? ==> resp == InvalidBody && unchanged(s)
    ensures session.Some? && ParseNewChild(body, session.value.id).Some? ==>
      var child := ChildWithId(ParseNewChild(body, session.value.id).value, old(s.childIdCounter));
      && child.userId == session.value.id
      && resp == Response(201, ChildRecord(child))
      && s.children == old(s.children)[child.id := child]
      && s.childIdCounter == old(s.childIdCounter) + 1
      && s.users == old(s.users) && s.vaccinations == old(s.vaccinations)
      && s.userIdCounter == old(s.userIdCounter) && s.vaccinationIdCounter == old(s.vaccinationIdCounter)
  {
    if session.None? {
      return Unauthorized;
    }
    var childData := ParseNewChild(body, session.value.id);
    if childData.None? {
      return InvalidBody;
    }
    var child := s.CreateChild(childData.value);
    resp := Response(201, ChildRecord(child));
  }

  /** `GET /api/children/:id`. */
  method GetChildRoute(s: MemStorage, session: Option<User>, childId: Option<int>) returns (resp: Response)
    requires s.Valid()
    ensures ChildGuard(session, childId, s.children, ChildForbidden).Some? ==>
      resp == ChildGuard(session, childId, s.children, ChildForbidden).value
    ensures ChildGuard(session, childId, s.children, ChildForbidden).None? ==>
      resp == Response(200, ChildRecord(s.children[childId.value]))
  {
    var denied := ChildGuard(session, childId, s.children, ChildForbidden);
    if denied.Some? {
      return denied.value;
    }
    var child := s.GetChild(childId.value);
    resp := Response(200, ChildRecord(child.value));
  }

  /** `PUT /api/children/:id`: the body is checked only once the caller owns the child. */
  method UpdateChildRoute(s: MemStorage, session: Option<User>, childId: Option<int>, body: ChildBody) returns (resp: Response)
    requires s.Valid()
    modifies s
    ensures s.Valid()
    ensures ChildGuard(session, childId, old(s.children), ChildForbidden).Some? ==>
      resp == ChildGuard(session, childId, old(s.children), ChildForbidden).value && unchanged(s)
    ensures ChildGuard(session, childId, old(s.children), ChildForbidden).None? && ParseChildPatch(body).None? ==>
      resp == InvalidBody && unchanged(s)
    ensures ChildGuard(session, childId, old(s.children), ChildForbidden).None? && ParseChildPatch(body).Some? ==>
      var updated := MergeChild(old(s.children)[childId.value], ParseChildPatch(body).value);
      && updated.userId == session.value.id
      && resp == Response(200, ChildRecord(updated))
      && s.children == old(s.children)[childId.value := updated]
      && s.childIdCounter == old(s.childIdCounter)
      && s.users == old(s.users) && s.vaccinations == old(s.vaccinations)
      && s.userIdCounter == old(s.userIdCounter) && s.vaccinationIdCounter == old(s.vaccinationIdCounter)
  {
    var denied := ChildGuard(session, childId, s.children, ChildForbidden);
    if denied.Some? {
      return denied.value;
    }
    var updateData := ParseChildPatch(body);
    if updateData.None? {
      return InvalidBody;
    }
    var updatedChild := s.UpdateChild(childId.value, updateData.value);
    resp := Response(200, ChildRecord(updatedChild.value));
  }

  /** `DELETE /api/children/:id`: the child's vaccination records are left in the store. */
  method DeleteChildRoute(s: MemStorage, session: Option<User>, childId: Option<int>) returns (resp: Response)
    requires s.Valid()
    modifies s
    ensures s.Valid()
    ensures ChildGuard(session, childId, old(s.children), ChildForbidden).Some? ==>
      resp == ChildGuard(session, childId, old(s.children), ChildForbidden).value && unchanged(s)
    ensures ChildGuard(session, childId, old(s.children), ChildForbidden).None? ==>
      && resp == Response(204, NoContent)
      && s.children == old(s.children) - {childId.value}
      && s.childIdCounter == old(s.childIdCounter)
      && s.users == old(s.users) && s.vaccinations == old(s.vaccinations)
      && s.userIdCounter == old(s.userIdCounter) && s.vaccinationIdCounter == old(s.vaccinationIdCounter)
  {
    var denied := ChildGuard(session, childId, s.children, ChildForbidden);
    if denied.Some? {
      return denied.value;
    }
    var _ := s.DeleteChild(childId.value);
    resp := Response(204, NoContent);
  }

  /** `GET /api/children/:childId/vaccinations`. */
  method ListVaccinationsRoute(s: MemStorage, session: Option<User>, childId: Option<int>) returns (resp: Response)
    requires s.Valid()
    ensures ChildGuard(session, childId, s.children, ChildVaccinationsForbidden).Some? ==>
      resp == ChildGuard(session, childId, s.children, ChildVaccinationsForbidden).value
    ensures ChildGuard(session, childId, s.children, ChildVaccinationsForbidden).None? ==>
      resp == Response(200, VaccinationList(s.VaccinationsOf(childId.value)))
  {
    var denied := ChildGuard(session, childId, s.children, ChildVaccinationsForbidden);
    if denied.Some? {
      return denied.value;
    }
    var vaccinations := s.GetVaccinations(childId.value);
    resp := Response(200, VaccinationList(vaccinations));
  }

  /** `POST /api/children/:childId/vaccinations`: the new record always belongs to the child of the path. */
  method CreateVaccinationRoute(s: MemStorage, session: Option<User>, childId: Option<int>, body: VaccinationBody) returns (resp: Response)
    requires s.Valid()
    modifies s
    ensures s.Valid()
    ensures ChildGuard(session, childId, old(s.children), ChildVaccinationsForbidden).Some? ==>
      resp == ChildGuard(session, childId, old(s.children), ChildVaccinationsForbidden).value && unchanged(s)
    ensures ChildGuard(session, childId, old(s.children), ChildVaccinationsForbidden).None?
            && ParseNewVaccination(body, childId.value).None? ==>
      resp == InvalidBody && unchanged(s)
    ensures ChildGuard(session, childId, old(s.children), ChildVaccinationsForbidden).None?
            && ParseNewVaccination(body, childId.value).Some? ==>
      var vaccination := VaccinationWithId(ParseNewVaccination(body, childId.value).value, old(s.vaccinationIdCounter));
      && vaccination.childId == childId.value
      && resp == Response(201, VaccinationRecord(vaccination))
      && s.vaccinations == old(s.vaccinations)[vaccination.id := vaccination]
      && s.vaccinationIdCounter == old(s.vaccinationIdCounter) + 1
      && s.users == old(s.users) && s.children == old(s.children)
      && s.userIdCounter == old(s.userIdCounter) && s.childIdCounter == old(s.childIdCounter)
  {
    var denied := ChildGuard(session, childId, s.children, ChildVaccinationsForbidden);
    if denied.Some? {
      return denied.value;
    }
    var vaccinationData := ParseNewVaccination(body, childId.value);
    if vaccinationData.None? {
      return InvalidBody;
    }
    var vaccination := s.CreateVaccination(vaccinationData.value);
    resp := Response(201, VaccinationRecord(vaccination));
  }

  /** `GET /api/vaccinations/:id`. */
  method GetVaccinationRoute(s: MemStorage, session: Option<User>, id: Option<int>) returns (resp: Response)
    requires s.Valid()
    ensures VaccinationGuard(session, id, s.vaccinations, s.children).Some? ==>
      resp == VaccinationGuard(session, id, s.vaccinations, s.children).value
    ensures VaccinationGuard(session, id, s.vaccinations, s.children).None? ==>
      resp == Response(200, VaccinationRecord(s.vaccinations[id.value]))
  {
    var denied := VaccinationGuard(session, id, s.vaccinations, s.children);
    if denied.Some? {
      return denied.value;
    }
    var vaccination := s.GetVaccination(id.value);
    resp := Response(200, VaccinationRecord(vaccination.value));
  }

  /** `PUT /api/vaccinations/:id`. */
  method UpdateVaccinationRoute(s: MemStorage, session: Option<User>, id: Option<int>, body: VaccinationBody) returns (resp: Response)
    requires s.Valid()
    modifies s
    ensures s.Valid()
    ensures VaccinationGuard(session, id, old(s.vaccinations), old(s.children)).Some? ==>
      resp == VaccinationGuard(session, id, old(s.vaccinations), old(s.children)).value && unchanged(s)
    ensures VaccinationGuard(session, id, old(s.vaccinations), old(s.children)).None? && ParseVaccinationPatch(body).None? ==>
      resp == InvalidBody && unchanged(s)
    ensures VaccinationGuard(session, id, old(s.vaccinations), old(s.children)).None? && ParseVaccinationPatch(body).Some? ==>
      var updated := MergeVaccination(old(s.vaccinations)[id.value], ParseVaccinationPatch(body).value);
      && updated.childId == old(s.vaccinations)[id.value].childId
      && resp == Response(200, VaccinationRecord(updated))
      && s.vaccinations == old(s.vaccinations)[id.value := updated]
      && s.vaccinationIdCounter == old(s.vaccinationIdCounter)
      && s.users == old(s.users) && s.children == old(s.children)
      && s.userIdCounter == old(s.userIdCounter) && s.childIdCounter == old(s.childIdCounter)
  {
    var denied := VaccinationGuard(session, id, s.vaccinations, s.children);
    if denied.Some? {
      return denied.value;
    }
    var updateData := ParseVaccinationPatch(body);
    if updateData.None? {
      return InvalidBody;
    }
    var updatedVaccination := s.UpdateVaccination(id.value, updateData.value);
    resp := Response(200, VaccinationRecord(updatedVaccination.value));
  }

  /** `DELETE /api/vaccinations/:id`. */
  method DeleteVaccinationRoute(s: MemStorage, session: Option<User>, id: Option<int>) returns (resp: Response)
    requires s.Valid()
    modifies s
    ensures s.Valid()
    ensures VaccinationGuard(session, id, old(s.vaccinations), old(s.children)).Some? ==>
      resp == VaccinationGuard(session, id, old(s.vaccinations), old(s.children)).value && unchanged(s)
    ensures VaccinationGuard(session, id, old(s.vaccinations), old(s.children)).None? ==>
      && resp == Response(204, NoContent)
      && s.vaccinations == old(s.vaccinations) - {id.value}
      && s.vaccinationIdCounter == old(s.vaccinationIdCounter)
      && s.users == old(s.users) && s.children == old(s.children)
      && s.userIdCounter == old(s.userIdCounter) && s.childIdCounter == old(s.childIdCounter)
  {
    var denied := VaccinationGuard(session, id, s.vaccinations, s.children);
    if denied.Some? {
      return denied.value;
    }
    var _ := s.DeleteVaccination(id.value);
    resp := Response(204, NoContent);
  }

  /** `GET /api/dashboard`, given the current time `now` in milliseconds. */
  method DashboardRoute(s: MemStorage, session: Option<User>, now: int) returns (resp: Response)
    requires s.Valid()
    ensures session.None? ==> resp == Unauthorized
    ensures session.Some? ==>
      var user := session.value;
      resp == Response(200, DashboardData(user.firstName, user.lastName,
                                          s.ChildCount(user.id),
                                          s.UserUpcoming(user.id, DashboardDays, now)))
  {
    if session.None? {
      return Unauthorized;
    }
    var user := session.value;
    var children := s.GetChildren(user.id);
    var upcomingVaccinations := s.GetUserUpcomingVaccinations(user.id, DashboardDays, now);
    s.ChildCountIsOwnedCount(user.id);
    resp := Response(200, DashboardData(user.firstName, user.lastName, |children|, upcomingVaccinations));
  }
}
