/**
 * The calendar page: the records scheduled on the selected day, the test that
 * highlights a day with at least one record, and the child-name lookup.
 */
module CalendarPage {
  import opened Wrappers
  import opened Dates
  import opened Seqs
  import opened Schema
  import opened Storage

  /** Same day of the month, month and full year. */
  predicate SameDay(a: Date, b: Date)
  {
    a.day == b.day && a.month == b.month && a.year == b.year
  }

  function OnDay(d: Date): Vaccination -> bool
  {
    (v: Vaccination) => SameDay(v.scheduledDate, d)
  }

  /** `selectedDateVaccinations`: nothing when no date is selected. */
  function SelectedDateVaccinations(all: seq<Vaccination>, selectedDate: Option<Date>): seq<Vaccination>
  {
    if selectedDate.None? then [] else Filter(all, OnDay(selectedDate.value))
  }

  /** `dayWithVaccination`: some record is scheduled on that calendar day. */
  predicate DayWithVaccination(all: seq<Vaccination>, d: Date)
  {
    exists i | 0 <= i < |all| :: SameDay(all[i].scheduledDate, d)
  }

  /**
   * The day's list keeps, in their original order, exactly the records
   * scheduled on that day.
   */
  lemma SelectedDateExact(all: seq<Vaccination>, d: Date)
    ensures IsSubsequence(SelectedDateVaccinations(all, Some(d)), all)
    ensures forall v :: v in SelectedDateVaccinations(all, Some(d)) <==> v in all && SameDay(v.scheduledDate, d)
  {
    FilterIsSubsequence(all, OnDay(d));
    forall v
      ensures v in SelectedDateVaccinations(all, Some(d)) <==> v in all && SameDay(v.scheduledDate, d)
    {
      FilterMembership(all, OnDay(d), v);
    }
  }

  /** A day is highlighted exactly when its list is non-empty. */
  lemma HighlightedIffListed(all: seq<Vaccination>, d: Date)
    ensures DayWithVaccination(all, d) <==> |SelectedDateVaccinations(all, Some(d))| > 0
  {
    var listed := SelectedDateVaccinations(all, Some(d));
    SelectedDateExact(all, d);
    if DayWithVaccination(all, d) {
      var i :| 0 <= i < |all| && SameDay(all[i].scheduledDate, d);
      assert all[i] in listed;
    }
    if |listed| > 0 {
      assert listed[0] in all;
      var i :| 0 <= i < |all| && all[i] == listed[0];
    }
  }

  /**
   * `getChildName` is the same `find` with the same fallback as the upcoming
   * query's name lookup: "first last" of the first child with that id, or
   * "Unknown Child" when none has it.
   */
  lemma ChildNameLookup(children: seq<Child>, childId: int)
    ensures (exists i | 0 <= i < |children| :: children[i].id == childId) ==>
      exists i | 0 <= i < |children| ::
        && children[i].id == childId
        && (forall j | 0 <= j < i :: children[j].id != childId)
        && ChildNameIn(children, childId) == children[i].firstName + " " + children[i].lastName
    ensures (forall i | 0 <= i < |children| :: children[i].id != childId) ==>
      ChildNameIn(children, childId) == "Unknown Child"
  {
    if exists i | 0 <= i < |children| :: children[i].id == childId {
      FirstWithId(children, childId);
    }
  }

  lemma {:induction false} FirstWithId(children: seq<Child>, childId: int)
    requires exists i | 0 <= i < |children| :: children[i].id == childId
    ensures exists i | 0 <= i < |children| ::
      && children[i].id == childId
      && (forall j | 0 <= j < i :: children[j].id != childId)
      && FindChild(children, childId) == Some(children[i])
  {
    if children[0].id == childId {
      assert FindChild(children, childId) == Some(children[0]);
    } else {
      var rest := children[1..];
      var k :| 0 <= k < |children| && children[k].id == childId;
      assert rest[k - 1].id == childId;
      FirstWithId(rest, childId);
      var i :| 0 <= i < |rest| && rest[i].id == childId
               && (forall j | 0 <= j < i :: rest[j].id != childId)
               && FindChild(rest, childId) == Some(rest[i]);
      assert children[i + 1] == rest[i];
      forall j | 0 <= j < i + 1
        ensures children[j].id != childId
      {
        if j > 0 {
          assert children[j] == rest[j - 1];
        }
      }
    }
  }
}
