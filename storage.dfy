/**
 * The in-memory store: three maps keyed by id, each with its own id counter.
 * A JavaScript `Map` iterates in insertion order; the store inserts new keys
 * only with a counter that only grows, and `set` on a present key keeps its
 * place, so iteration order is ascending id order. Every query below walks the
 * ids upwards and is specified by `Collect`, which lists a map's entries in
 * ascending key order.
 */
module Storage {
  import opened Wrappers
  import opened Dates
  import opened Schema

  /** The values of `m` under keys 1 .. bound-1 that satisfy `keep`, in ascending key order. */
  function Collect<T>(m: map<int, T>, keep: T -> bool, bound: int): (r: seq<T>)
    ensures forall i | 0 <= i < |r| :: keep(r[i])
    decreases bound
  {
    if bound <= 1 then []
    else Collect(m, keep, bound - 1) + (if bound - 1 in m && keep(m[bound - 1]) then [m[bound - 1]] else [])
  }

  /** An element is collected iff it is stored under some key below the bound and satisfies `keep`. */
  lemma {:induction false} CollectMembership<T>(m: map<int, T>, keep: T -> bool, bound: int, x: T)
    ensures x in Collect(m, keep, bound) <==> exists k :: 1 <= k < bound && k in m && m[k] == x && keep(x)
    decreases bound
  {
    if bound > 1 {
      CollectMembership(m, keep, bound - 1, x);
      if x in Collect(m, keep, bound) && x !in Collect(m, keep, bound - 1) {
        assert bound - 1 in m && m[bound - 1] == x;
      }
    }
  }

  /**
   * When every record carries its own key as its id, the collected records have
   * strictly increasing ids, all in 1 .. bound-1.
   */
  lemma {:induction false} CollectAscending<T>(m: map<int, T>, keep: T -> bool, bound: int, id: T -> int)
    requires forall k | k in m :: id(m[k]) == k
    ensures forall i | 0 <= i < |Collect(m, keep, bound)| :: 1 <= id(Collect(m, keep, bound)[i]) < bound
    ensures forall i, j | 0 <= i < j < |Collect(m, keep, bound)| :: id(Collect(m, keep, bound)[i]) < id(Collect(m, keep, bound)[j])
    decreases bound
  {
    if bound > 1 {
      CollectAscending(m, keep, bound - 1, id);
      var r0 := Collect(m, keep, bound - 1);
      if bound - 1 in m && keep(m[bound - 1]) {
        var r := r0 + [m[bound - 1]];
        assert Collect(m, keep, bound) == r;
        assert id(r[|r0|]) == bound - 1;
        assert forall i | 0 <= i < |r0| :: r[i] == r0[i];
      } else {
        assert Collect(m, keep, bound) == r0;
        assert forall i | 0 <= i < |r0| :: 1 <= id(r0[i]) < bound - 1;
      }
    }
  }

  /**
   * When every record carries its own key as its id, the first collected record
   * is the satisfying record with the smallest key, and there is one exactly
   * when some key below the bound holds a satisfying record.
   */
  lemma {:induction false} CollectFirst<T>(m: map<int, T>, keep: T -> bool, bound: int, id: T -> int)
    requires forall k | k in m :: id(m[k]) == k
    ensures |Collect(m, keep, bound)| > 0 <==> exists k :: 1 <= k < bound && k in m && keep(m[k])
    ensures |Collect(m, keep, bound)| > 0 ==>
      var x := Collect(m, keep, bound)[0];
      && 1 <= id(x) < bound && id(x) in m && m[id(x)] == x && keep(x)
      && forall k | 1 <= k < id(x) && k in m :: !keep(m[k])
    decreases bound
  {
    if bound > 1 {
      CollectFirst(m, keep, bound - 1, id);
      var r0 := Collect(m, keep, bound - 1);
      if |r0| > 0 {
        assert Collect(m, keep, bound)[0] == r0[0];
      } else if bound - 1 in m && keep(m[bound - 1]) {
        assert Collect(m, keep, bound) == [m[bound - 1]];
      } else {
        assert Collect(m, keep, bound) == r0;
      }
    }
  }

  function IsChildOf(userId: int): Child -> bool
  {
    (c: Child) => c.userId == userId
  }

  function IsVaccinationOf(childId: int): Vaccination -> bool
  {
    (v: Vaccination) => v.childId == childId
  }

  function HasUsername(username: string): User -> bool
  {
    (u: User) => u.username == username
  }

  function ChildIds(kids: seq<Child>): (ids: seq<int>)
    ensures |ids| == |kids|
    ensures forall i | 0 <= i < |kids| :: ids[i] == kids[i].id
  {
    seq(|kids|, i requires 0 <= i < |kids| => kids[i].id)
  }

  /**
   * The filter of the upcoming query: a record of one of the listed children,
   * not administered, scheduled (at midnight) no earlier than `now` and no later
   * than `future`.
   */
  function IsUpcomingFor(childIds: seq<int>, now: int, future: int): Vaccination -> bool
  {
    (v: Vaccination) => v.childId in childIds && !IsAdministered(v) && now <= Instant(v.scheduledDate) <= future
  }

  /** `children.find(c => c.id === id)`. */
  function FindChild(kids: seq<Child>, id: int): (r: Option<Child>)
    ensures r.Some? ==> r.value in kids && r.value.id == id
    ensures r.None? ==> forall i | 0 <= i < |kids| :: kids[i].id != id
  {
    if |kids| == 0 then None
    else if kids[0].id == id then Some(kids[0])
    else FindChild(kids[1..], id)
  }

  function FullName(c: Child): string
  {
    c.firstName + " " + c.lastName
  }

  /** A vaccination record of the upcoming query, with the name of its child attached. */
  datatype UpcomingVaccination = UpcomingVaccination(vaccination: Vaccination, childName: string)

  function ChildNameIn(kids: seq<Child>, childId: int): string
  {
    match FindChild(kids, childId)
    case Some(c) => FullName(c)
    case None => "Unknown Child"
  }

  function WithChildNames(vs: seq<Vaccination>, kids: seq<Child>): seq<UpcomingVaccination>
  {
    seq(|vs|, i requires 0 <= i < |vs| => UpcomingVaccination(vs[i], ChildNameIn(kids, vs[i].childId)))
  }

  class MemStorage {
    var users: map<int, User>
    var userIdCounter: int
    var children: map<int, Child>
    var childIdCounter: int
    var vaccinations: map<int, Vaccination>
    var vaccinationIdCounter: int

    /**
     * Every stored record sits under its own id, and every id in use is below
     * its counter, which starts at 1: the next id handed out is free.
     */
    predicate Valid()
      reads this
    {
      && 1 <= userIdCounter && 1 <= childIdCounter && 1 <= vaccinationIdCounter
      && (forall id | id in users :: 1 <= id < userIdCounter && users[id].id == id)
      && (forall id | id in children :: 1 <= id < childIdCounter && children[id].id == id)
      && (forall id | id in vaccinations :: 1 <= id < vaccinationIdCounter && vaccinations[id].id == id)
    }

    constructor ()
      ensures Valid()
      ensures users == map[] && children == map[] && vaccinations == map[]
      ensures userIdCounter == 1 && childIdCounter == 1 && vaccinationIdCounter == 1
    {
      users := map[];
      userIdCounter := 1;
      children := map[];
      childIdCounter := 1;
      vaccinations := map[];
      vaccinationIdCounter := 1;
    }

    // Users

    method GetUser(id: int) returns (r: Option<User>)
      ensures r.Some? <==> id in users
      ensures r.Some? ==> r.value == users[id]
    {
      r := if id in users then Some(users[id]) else None;
    }

    /** The first user, in id order, with this username. */
    function UserNamed(username: string): Option<User>
      reads this
    {
      var found := Collect(users, HasUsername(username), userIdCounter);
      if |found| == 0 then None else Some(found[0])
    }

    method GetUserByUsername(username: string) returns (r: Option<User>)
      requires Valid()
      ensures r == UserNamed(username)
    {
      var id := 1;
      while id < userIdCounter
        invariant 1 <= id <= userIdCounter
        invariant Collect(users, HasUsername(username), id) == []
      {
        if id in users && users[id].username == username {
          CollectPrefix(users, HasUsername(username), id + 1, userIdCounter);
          return Some(users[id]);
        }
        id := id + 1;
      }
      return None;
    }

    /**
     * `UserNamed` finds a stored user with the username whenever there is one, and
     * no user with that name has a smaller id.
     */
    lemma UserNamedFinds(username: string)
      requires Valid()
      ensures UserNamed(username).None? <==> forall id | id in users :: users[id].username != username
      ensures UserNamed(username).Some? ==>
        var u := UserNamed(username).value;
        && u.id in users && users[u.id] == u && u.username == username
        && forall id | id in users && id < u.id :: users[id].username != username
    {
      CollectFirst(users, HasUsername(username), userIdCounter, (u: User) => u.id);
      if exists id | id in users :: users[id].username == username {
        var id :| id in users && users[id].username == username;
        assert 1 <= id < userIdCounter && HasUsername(username)(users[id]);
      }
    }

    method CreateUser(u: InsertUser) returns (user: User)
      requires Valid()
      modifies this
      ensures Valid()
      ensures user == UserWithId(u, old(userIdCounter))
      ensures old(userIdCounter) !in old(users)
      ensures forall id | id in old(users) :: id < user.id
      ensures users == old(users)[user.id := user]
      ensures userIdCounter == old(userIdCounter) + 1
      ensures children == old(children) && childIdCounter == old(childIdCounter)
      ensures vaccinations == old(vaccinations) && vaccinationIdCounter == old(vaccinationIdCounter)
    {
      var id := userIdCounter;
      userIdCounter := userIdCounter + 1;
      user := UserWithId(u, id);
      users := users[id := user];
    }

    // Children

    function ChildrenOf(userId: int): seq<Child>
      reads this
    {
      Collect(children, IsChildOf(userId), childIdCounter)
    }

    method GetChildren(userId: int) returns (r: seq<Child>)
      requires Valid()
      ensures r == ChildrenOf(userId)
    {
      r := [];
      var id := 1;
      while id < childIdCounter
        invariant 1 <= id <= childIdCounter
        invariant r == Collect(children, IsChildOf(userId), id)
      {
        if id in children && children[id].userId == userId {
          r := r + [children[id]];
        }
        id := id + 1;
      }
    }

    /** `ChildrenOf` lists exactly the stored children of the user, ascending by id. */
    lemma ChildrenOfExact(userId: int)
      requires Valid()
      ensures forall c :: c in ChildrenOf(userId) <==> c in children.Values && c.userId == userId
      ensures var r := ChildrenOf(userId); forall i, j | 0 <= i < j < |r| :: r[i].id < r[j].id
    {
      CollectAscending(children, IsChildOf(userId), childIdCounter, (c: Child) => c.id);
      forall c
        ensures c in ChildrenOf(userId) <==> c in children.Values && c.userId == userId
      {
        CollectMembership(children, IsChildOf(userId), childIdCounter, c);
        if c in children.Values {
          var k :| k in children && children[k] == c;
        }
      }
    }

    /** The number of stored children the user owns. */
    function ChildCount(userId: int): int
      reads this
    {
      |set id | id in children && children[id].userId == userId|
    }

    /** `getChildren(userId).length` counts the user's children. */
    lemma ChildCountIsOwnedCount(userId: int)
      requires Valid()
      ensures |ChildrenOf(userId)| == ChildCount(userId)
    {
      ChildrenOfExact(userId);
      AscendingIdsCount(ChildrenOf(userId));
      OwnedIdsListed(userId);
    }

    /** The ids of the listed children are the keys under which the user's children are stored. */
    lemma OwnedIdsListed(userId: int)
      requires Valid()
      ensures IdSet(ChildrenOf(userId)) == set id | id in children && children[id].userId == userId
    {
      var r := ChildrenOf(userId);
      var owned := set id | id in children && children[id].userId == userId;
      forall id | id in owned
        ensures id in IdSet(r)
      {
        CollectMembership(children, IsChildOf(userId), childIdCounter, children[id]);
        var i :| 0 <= i < |r| && r[i] == children[id];
      }
      forall id | id in IdSet(r)
        ensures id in owned
      {
        var i :| 0 <= i < |r| && r[i].id == id;
        CollectMembership(children, IsChildOf(userId), childIdCounter, r[i]);
      }
    }

    method GetChild(id: int) returns (r: Option<Child>)
      ensures r.Some? <==> id in children
      ensures r.Some? ==> r.value == children[id]
    {
      r := if id in children then Some(children[id]) else None;
    }

    method CreateChild(c: InsertChild) returns (child: Child)
      requires Valid()
      modifies this
      ensures Valid()
      ensures child == ChildWithId(c, old(childIdCounter))
      ensures old(childIdCounter) !in old(children)
      ensures forall id | id in old(children) :: id < child.id
      ensures children == old(children)[child.id := child]
      ensures childIdCounter == old(childIdCounter) + 1
      ensures users == old(users) && userIdCounter == old(userIdCounter)
      ensures vaccinations == old(vaccinations) && vaccinationIdCounter == old(vaccinationIdCounter)
    {
      var id := childIdCounter;
      childIdCounter := childIdCounter + 1;
      child := ChildWithId(c, id);
      children := children[id := child];
    }

    method UpdateChild(id: int, patch: ChildPatch) returns (r: Option<Child>)
      requires Valid()
      modifies this
      ensures Valid()
      ensures id !in old(children) ==> r.None? && children == old(children)
      ensures id in old(children) ==>
        && r == Some(MergeChild(old(children)[id], patch))
        && children == old(children)[id := r.value]
      ensures childIdCounter == old(childIdCounter)
      ensures users == old(users) && userIdCounter == old(userIdCounter)
      ensures vaccinations == old(vaccinations) && vaccinationIdCounter == old(vaccinationIdCounter)
    {
      if id !in children {
        return None;
      }
      var updated := MergeChild(children[id], patch);
      children := children[id := updated];
      r := Some(updated);
    }

    /** Removes the child only; its vaccination records stay in the store. */
    method DeleteChild(id: int) returns (removed: bool)
      requires Valid()
      modifies this
      ensures Valid()
      ensures removed <==> id in old(children)
      ensures children == old(children) - {id}
      ensures childIdCounter == old(childIdCounter)
      ensures users == old(users) && userIdCounter == old(userIdCounter)
      ensures vaccinations == old(vaccinations) && vaccinationIdCounter == old(vaccinationIdCounter)
    {
      removed := id in children;
      children := children - {id};
    }

    // Vaccination records

    function VaccinationsOf(childId: int): seq<Vaccination>
      reads this
    {
      Collect(vaccinations, IsVaccinationOf(childId), vaccinationIdCounter)
    }

    method GetVaccinations(childId: int) returns (r: seq<Vaccination>)
      requires Valid()
      ensures r == VaccinationsOf(childId)
    {
      r := [];
      var id := 1;
      while id < vaccinationIdCounter
        invariant 1 <= id <= vaccinationIdCounter
        invariant r == Collect(vaccinations, IsVaccinationOf(childId), id)
      {
        if id in vaccinations && vaccinations[id].childId == childId {
          r := r + [vaccinations[id]];
        }
        id := id + 1;
      }
    }

    /** `VaccinationsOf` lists exactly the stored records of the child, ascending by id. */
    lemma VaccinationsOfExact(childId: int)
      requires Valid()
      ensures forall v :: v in VaccinationsOf(childId) <==> v in vaccinations.Values && v.childId == childId
      ensures var r := VaccinationsOf(childId); forall i, j | 0 <= i < j < |r| :: r[i].id < r[j].id
    {
      CollectAscending(vaccinations, IsVaccinationOf(childId), vaccinationIdCounter, (v: Vaccination) => v.id);
      forall v
        ensures v in VaccinationsOf(childId) <==> v in vaccinations.Values && v.childId == childId
      {
        CollectMembership(vaccinations, IsVaccinationOf(childId), vaccinationIdCounter, v);
        if v in vaccinations.Values {
          var k :| k in vaccinations && vaccinations[k] == v;
        }
      }
    }

    method GetVaccination(id: int) returns (r: Option<Vaccination>)
      ensures r.Some? <==> id in vaccinations
      ensures r.Some? ==> r.value == vaccinations[id]
    {
      r := if id in vaccinations then Some(vaccinations[id]) else None;
    }

    method CreateVaccination(v: InsertVaccination) returns (vaccination: Vaccination)
      requires Valid()
      modifies this
      ensures Valid()
      ensures vaccination == VaccinationWithId(v, old(vaccinationIdCounter))
      ensures old(vaccinationIdCounter) !in old(vaccinations)
      ensures forall id | id in old(vaccinations) :: id < vaccination.id
      ensures vaccinations == old(vaccinations)[vaccination.id := vaccination]
      ensures vaccinationIdCounter == old(vaccinationIdCounter) + 1
      ensures users == old(users) && userIdCounter == old(userIdCounter)
      ensures children == old(children) && childIdCounter == old(childIdCounter)
    {
      var id := vaccinationIdCounter;
      vaccinationIdCounter := vaccinationIdCounter + 1;
      vaccination := VaccinationWithId(v, id);
      vaccinations := vaccinations[id := vaccination];
    }

    method UpdateVaccination(id: int, patch: VaccinationPatch) returns (r: Option<Vaccination>)
      requires Valid()
      modifies this
      ensures Valid()
      ensures id !in old(vaccinations) ==> r.None? && vaccinations == old(vaccinations)
      ensures id in old(vaccinations) ==>
        && r == Some(MergeVaccination(old(vaccinations)[id], patch))
        && vaccinations == old(vaccinations)[id := r.value]
      ensures vaccinationIdCounter == old(vaccinationIdCounter)
      ensures users == old(users) && userIdCounter == old(userIdCounter)
      ensures children == old(children) && childIdCounter == old(childIdCounter)
    {
      if id !in vaccinations {
        return None;
      }
      var updated := MergeVaccination(vaccinations[id], patch);
      vaccinations := vaccinations[id := updated];
      r := Some(updated);
    }

    method DeleteVaccination(id: int) returns (removed: bool)
      requires Valid()
      modifies this
      ensures Valid()
      ensures removed <==> id in old(vaccinations)
      ensures vaccinations == old(vaccinations) - {id}
      ensures vaccinationIdCounter == old(vaccinationIdCounter)
      ensures users == old(users) && userIdCounter == old(userIdCounter)
      ensures children == old(children) && childIdCounter == old(childIdCounter)
    {
      removed := id in vaccinations;
      vaccinations := vaccinations - {id};
    }

    // The upcoming-vaccinations join

    /**
     * The records the upcoming query keeps: those of the user's children, not
     * administered, scheduled within `days` days from `now` (milliseconds).
     */
    function UpcomingOf(userId: int, days: int, now: int): seq<Vaccination>
      reads this
    {
      Collect(vaccinations, IsUpcomingFor(ChildIds(ChildrenOf(userId)), now, now + days * MsPerDay), vaccinationIdCounter)
    }

    function UserUpcoming(userId: int, days: int, now: int): seq<UpcomingVaccination>
      reads this
    {
      WithChildNames(UpcomingOf(userId, days, now), ChildrenOf(userId))
    }

    /**
     * `getUserUpcomingVaccinations`, given the current time `now` in
     * milliseconds; `now + days` days is the end of the window, as
     * `setDate(getDate() + days)` computes it away from daylight-saving changes.
     */
    method GetUserUpcomingVaccinations(userId: int, days: int, now: int) returns (r: seq<UpcomingVaccination>)
      requires Valid()
      ensures r == UserUpcoming(userId, days, now)
    {
      var userChildren := GetChildren(userId);
      var childIds := ChildIds(userChildren);
      var futureDate := now + days * MsPerDay;
      var isUpcoming := IsUpcomingFor(childIds, now, futureDate);
      var upcoming := VaccinationsWhere(isUpcoming);
      r := WithChildNames(upcoming, userChildren);
    }

    /** The stored records that satisfy `keep`, in the map's insertion order. */
    method VaccinationsWhere(keep: Vaccination -> bool) returns (r: seq<Vaccination>)
      requires Valid()
      ensures r == Collect(vaccinations, keep, vaccinationIdCounter)
    {
      r := [];
      var id := 1;
      while id < vaccinationIdCounter
        invariant 1 <= id <= vaccinationIdCounter
        invariant r == Collect(vaccinations, keep, id)
      {
        if id in vaccinations && keep(vaccinations[id]) {
          r := r + [vaccinations[id]];
        }
        id := id + 1;
      }
    }

    /** A child id is among the user's child ids iff that child is stored and belongs to the user. */
    lemma ChildIdsOfUser(userId: int, childId: int)
      requires Valid()
      ensures childId in ChildIds(ChildrenOf(userId)) <==> childId in children && children[childId].userId == userId
    {
      var kids := ChildrenOf(userId);
      ChildrenOfExact(userId);
      if childId in ChildIds(kids) {
        var i :| 0 <= i < |kids| && ChildIds(kids)[i] == childId;
        CollectMembership(children, IsChildOf(userId), childIdCounter, kids[i]);
        var k :| 1 <= k < childIdCounter && k in children && children[k] == kids[i] && IsChildOf(userId)(kids[i]);
        assert k == childId;
      }
      if childId in children && children[childId].userId == userId {
        assert children[childId] in children.Values;
        assert children[childId] in kids;
        var i :| 0 <= i < |kids| && kids[i] == children[childId];
        var ids := ChildIds(kids);
        assert ids[i] == childId;
        assert ids[i] in ids;
      }
    }

    /**
     * The join is exact: a record is listed iff it is stored, belongs to one of
     * the user's stored children, is not administered and its scheduled midnight
     * lies in [now, now + days]; the list ascends by id.
     */
    lemma UpcomingOfExact(userId: int, days: int, now: int)
      requires Valid()
      ensures forall v :: v in UpcomingOf(userId, days, now) <==>
        && v in vaccinations.Values
        && v.childId in children && children[v.childId].userId == userId
        && !IsAdministered(v)
        && now <= Instant(v.scheduledDate) <= now + days * MsPerDay
      ensures var r := UpcomingOf(userId, days, now); forall i, j | 0 <= i < j < |r| :: r[i].id < r[j].id
    {
      var keep := IsUpcomingFor(ChildIds(ChildrenOf(userId)), now, now + days * MsPerDay);
      CollectAscending(vaccinations, keep, vaccinationIdCounter, (v: Vaccination) => v.id);
      forall v
        ensures v in UpcomingOf(userId, days, now) <==>
          && v in vaccinations.Values
          && v.childId in children && children[v.childId].userId == userId
          && !IsAdministered(v)
          && now <= Instant(v.scheduledDate) <= now + days * MsPerDay
      {
        CollectMembership(vaccinations, keep, vaccinationIdCounter, v);
        ChildIdsOfUser(userId, v.childId);
        if v in vaccinations.Values {
          var k :| k in vaccinations && vaccinations[k] == v;
        }
      }
    }

    /**
     * The window starts at the current instant, not at the start of today: a
     * record scheduled for today is left out once today's midnight has passed.
     */
    lemma UpcomingSkipsToday(userId: int, days: int, now: int, v: Vaccination)
      requires Valid()
      requires Instant(v.scheduledDate) < now
      ensures v !in UpcomingOf(userId, days, now)
    {
      UpcomingOfExact(userId, days, now);
    }

    /** The "Unknown Child" fallback never shows: every listed record is named after its own child. */
    lemma UserUpcomingNames(userId: int, days: int, now: int)
      requires Valid()
      ensures var r := UserUpcoming(userId, days, now);
              forall i | 0 <= i < |r| ::
                && r[i].vaccination.childId in children
                && r[i].childName == FullName(children[r[i].vaccination.childId])
    {
      var vs := UpcomingOf(userId, days, now);
      var kids := ChildrenOf(userId);
      UpcomingOfExact(userId, days, now);
      ChildrenOfExact(userId);
      forall i | 0 <= i < |vs|
        ensures vs[i].childId in children && ChildNameIn(kids, vs[i].childId) == FullName(children[vs[i].childId])
      {
        var cid := vs[i].childId;
        assert vs[i] in vs;
        assert children[cid] in kids;
        var found := FindChild(kids, cid);
        assert found.Some? by {
          var j :| 0 <= j < |kids| && kids[j] == children[cid];
        }
        assert found.value in children.Values;
      }
    }
  }

  function IdSet(r: seq<Child>): set<int>
  {
    set i | 0 <= i < |r| :: r[i].id
  }

  /** Records with strictly ascending ids have as many distinct ids as there are records. */
  lemma {:induction false} AscendingIdsCount(r: seq<Child>)
    requires forall i, j | 0 <= i < j < |r| :: r[i].id < r[j].id
    ensures |IdSet(r)| == |r|
  {
    if |r| > 0 {
      var front, last := r[..|r| - 1], r[|r| - 1];
      AscendingFront(r);
      AscendingIdsCount(front);
      LastIdFresh(r);
      assert r == front + [last];
      IdSetSnocCount(front, last);
    }
  }

  lemma AscendingFront(r: seq<Child>)
    requires |r| > 0
    requires forall i, j | 0 <= i < j < |r| :: r[i].id < r[j].id
    ensures var front := r[..|r| - 1]; forall i, j | 0 <= i < j < |front| :: front[i].id < front[j].id
  {
  }

  lemma LastIdFresh(r: seq<Child>)
    requires |r| > 0
    requires forall i, j | 0 <= i < j < |r| :: r[i].id < r[j].id
    ensures r[|r| - 1].id !in IdSet(r[..|r| - 1])
  {
    var front, last := r[..|r| - 1], r[|r| - 1];
    forall i | 0 <= i < |front|
      ensures front[i].id != last.id
    {
      assert front[i] == r[i];
    }
    IdSetMissing(front, last.id);
  }

  lemma IdSetSnocCount(front: seq<Child>, last: Child)
    requires last.id !in IdSet(front)
    ensures |IdSet(front + [last])| == |IdSet(front)| + 1
  {
    IdSetSnoc(front, last);
  }

  lemma IdSetMissing(r: seq<Child>, id: int)
    requires forall i | 0 <= i < |r| :: r[i].id != id
    ensures id !in IdSet(r)
  {
  }

  lemma IdSetSnoc(front: seq<Child>, last: Child)
    ensures IdSet(front + [last]) == IdSet(front) + {last.id}
  {
    var r := front + [last];
    forall id | id in IdSet(r)
      ensures id in IdSet(front) + {last.id}
    {
      var i :| 0 <= i < |r| && r[i].id == id;
      if i < |front| {
        assert front[i] == r[i];
      }
    }
    forall id | id in IdSet(front)
      ensures id in IdSet(r)
    {
      var i :| 0 <= i < |front| && front[i].id == id;
      assert r[i] == front[i];
    }
    assert r[|front|] == last;
  }

  /** A walk that finds its match at `id` has collected nothing before it, so the match heads the full list. */
  lemma {:induction false} CollectPrefix<T>(m: map<int, T>, keep: T -> bool, from: int, bound: int)
    requires 1 <= from - 1 && from <= bound
    requires Collect(m, keep, from - 1) == []
    requires from - 1 in m && keep(m[from - 1])
    ensures |Collect(m, keep, bound)| > 0 && Collect(m, keep, bound)[0] == m[from - 1]
    decreases bound
  {
    if bound > from {
      CollectPrefix(m, keep, from, bound - 1);
    }
  }
}
