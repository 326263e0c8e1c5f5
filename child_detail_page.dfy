/**
 * The recommendations of a child's page: the generated schedule for the
 * child's birth date, less every entry whose name some stored record already
 * carries (compared ignoring case), and the draft record that scheduling a
 * recommendation starts from.
 */
module ChildDetailPage {
  import opened Wrappers
  import opened Dates
  import opened Text
  import opened Seqs
  import opened Sorting
  import opened Schema
  import opened VaccinationData

  /** `vaccinations.some(v => v.vaccineName.toLowerCase() === rec.name.toLowerCase())`. */
  predicate IsRecorded(rec: ScheduledVaccination, stored: seq<Vaccination>)
  {
    exists i | 0 <= i < |stored| :: ToLower(stored[i].vaccineName) == ToLower(rec.name)
  }

  function NotRecorded(stored: seq<Vaccination>): ScheduledVaccination -> bool
  {
    (rec: ScheduledVaccination) => !IsRecorded(rec, stored)
  }

  /** The filter step of `generateRecommendedVaccinations`, over the generated schedule. */
  function Recommend(schedule: seq<ScheduledVaccination>, stored: seq<Vaccination>): seq<ScheduledVaccination>
  {
    Filter(schedule, NotRecorded(stored))
  }

  /**
   * The recommendations keep the schedule's order, and an entry is dropped
   * exactly when a stored record has its name ignoring case.
   */
  lemma RecommendExact(schedule: seq<ScheduledVaccination>, stored: seq<Vaccination>)
    ensures IsSubsequence(Recommend(schedule, stored), schedule)
    ensures forall e :: e in Recommend(schedule, stored) <==> e in schedule && !IsRecorded(e, stored)
  {
    FilterIsSubsequence(schedule, NotRecorded(stored));
    forall e
      ensures e in Recommend(schedule, stored) <==> e in schedule && !IsRecorded(e, stored)
    {
      FilterMembership(schedule, NotRecorded(stored), e);
    }
  }

  /** With nothing stored, every generated entry is recommended. */
  lemma RecommendNothingStored(schedule: seq<ScheduledVaccination>)
    ensures Recommend(schedule, []) == schedule
  {
    FilterKeepsAll(schedule, NotRecorded([]));
  }

  /**
   * `generateRecommendedVaccinations`: nothing without a loaded child, otherwise
   * the child's generated schedule, still sorted by date, restricted to the
   * entries no stored record names: the same entries, each as often, as the
   * filter of the unsorted per-pair entries.
   */
  method GenerateRecommendedVaccinations(child: Option<Child>, stored: seq<Vaccination>) returns (r: seq<ScheduledVaccination>)
    ensures child.None? ==> r == []
    ensures child.Some? ==>
      && SortedBy(r, ScheduledDay)
      && (forall e :: e in r <==> e in EntriesFor(child.value.birthDate, TableDoses()) && !IsRecorded(e, stored))
      && multiset(r) == multiset(Recommend(EntriesFor(child.value.birthDate, TableDoses()), stored))
    ensures child.Some? && stored == [] ==> |r| == 30
  {
    if child.None? {
      return [];
    }
    var recommendedSchedule := GenerateVaccinationSchedule(child.value.birthDate);
    r := Recommend(recommendedSchedule, stored);
    FilterSorted(recommendedSchedule, ScheduledDay, NotRecorded(stored));
    FilterSameMultiset(recommendedSchedule, EntriesFor(child.value.birthDate, TableDoses()), NotRecorded(stored));
    RecommendExact(recommendedSchedule, stored);
    RecommendNothingStored(recommendedSchedule);
    forall e
      ensures e in recommendedSchedule <==> e in EntriesFor(child.value.birthDate, TableDoses())
    {
      assert e in recommendedSchedule <==> e in multiset(recommendedSchedule);
    }
  }

  /** The partial record the Schedule button hands to the scheduling dialog. */
  datatype VaccinationDraft = VaccinationDraft(childId: int, vaccineName: string, scheduledDate: Date, administered: bool)

  function DraftFor(childId: int, rec: ScheduledVaccination): (d: VaccinationDraft)
    ensures d.childId == childId && d.vaccineName == rec.name && d.scheduledDate == rec.scheduledDate && !d.administered
  {
    VaccinationDraft(childId, rec.name, rec.scheduledDate, false)
  }

  /** Once a record named after the draft is stored, the recommendation it came from is no longer offered. */
  lemma StoredDraftLeavesRecommendations(schedule: seq<ScheduledVaccination>, stored: seq<Vaccination>,
                                         childId: int, rec: ScheduledVaccination, saved: Vaccination)
    requires saved.vaccineName == DraftFor(childId, rec).vaccineName
    ensures rec !in Recommend(schedule, stored + [saved])
  {
    var all := stored + [saved];
    assert all[|stored|] == saved;
    assert IsRecorded(rec, all);
    RecommendExact(schedule, all);
  }
}
