/**
 * The vaccination list of a child's page: the records split into an upcoming
 * tab (not administered) and a completed tab (administered), each sorted, and
 * the cards that offer actions only on the upcoming tab.
 */
module VaccinationList {
  import opened Dates
  import opened Schema
  import opened Seqs
  import opened Sorting

  predicate IsPending(v: Vaccination)
  {
    !IsAdministered(v)
  }

  /**
   * Ascending scheduled date: the key of the upcoming comparator. A difference
   * of `getTime()` values has the sign of the difference of day numbers.
   */
  function ScheduledKey(v: Vaccination): int
  {
    DayNumber(v.scheduledDate)
  }

  /** The date the completed tab sorts by: the administered date when there is one, else the scheduled date. */
  function EffectiveDate(v: Vaccination): Date
  {
    if v.administeredDate.Some? then v.administeredDate.value else v.scheduledDate
  }

  /** Descending effective date: `dateB - dateA` orders by the negated time. */
  function NewestFirstKey(v: Vaccination): int
  {
    -DayNumber(EffectiveDate(v))
  }

  /**
   * The two tabs. The filters copy the records into new arrays and only the
   * copies are sorted, so `vaccinations` itself is never changed (the method
   * has no licence to modify it).
   */
  method SplitAndSort(vaccinations: array<Vaccination>) returns (upcoming: seq<Vaccination>, completed: seq<Vaccination>)
    ensures forall i | 0 <= i < |upcoming| :: !IsAdministered(upcoming[i])
    ensures forall i | 0 <= i < |completed| :: IsAdministered(completed[i])
    ensures multiset(upcoming) == multiset(Filter(vaccinations[..], IsPending))
    ensures multiset(completed) == multiset(Filter(vaccinations[..], IsAdministered))
    ensures |upcoming| + |completed| == vaccinations.Length
    ensures multiset(upcoming) + multiset(completed) == multiset(vaccinations[..])
    ensures SortedBy(upcoming, ScheduledKey)
    ensures SortedBy(completed, NewestFirstKey)
  {
    var pending := Filter(vaccinations[..], IsPending);
    var done := Filter(vaccinations[..], IsAdministered);
    FilterPartition(vaccinations[..], IsAdministered, IsPending);
    upcoming := SortedCopy(pending, ScheduledKey);
    completed := SortedCopy(done, NewestFirstKey);
    SameMultisetAll(pending, upcoming, IsPending);
    SameMultisetAll(done, completed, IsAdministered);
  }

  /** A rearrangement of a list whose elements all satisfy `p` still has only such elements. */
  lemma SameMultisetAll<T>(s: seq<T>, t: seq<T>, p: T -> bool)
    requires forall i | 0 <= i < |s| :: p(s[i])
    requires multiset(t) == multiset(s)
    ensures forall i | 0 <= i < |t| :: p(t[i])
  {
    forall i | 0 <= i < |t|
      ensures p(t[i])
    {
      assert t[i] in multiset(s);
      var k :| 0 <= k < |s| && s[k] == t[i];
    }
  }

  /** A rendered card: its record, the child's name, and which action buttons it shows. */
  datatype Card = Card(vaccination: Vaccination, childName: string, canSchedule: bool, canMarkComplete: bool)

  /** Upcoming cards pass on the callbacks the list was given. */
  function UpcomingCards(vs: seq<Vaccination>, childName: string, hasOnSchedule: bool, hasOnMarkComplete: bool): seq<Card>
  {
    seq(|vs|, i requires 0 <= i < |vs| => Card(vs[i], childName, hasOnSchedule, hasOnMarkComplete))
  }

  /** Completed cards get no callbacks. */
  function CompletedCards(vs: seq<Vaccination>, childName: string): seq<Card>
  {
    seq(|vs|, i requires 0 <= i < |vs| => Card(vs[i], childName, false, false))
  }

  /**
   * Every upcoming card offers exactly the callbacks the list was given, no
   * completed card offers any, and an offered action is never on an
   * administered record.
   */
  lemma ActionsOnlyOnUpcoming(upcoming: seq<Vaccination>, completed: seq<Vaccination>, childName: string, hasOnSchedule: bool, hasOnMarkComplete: bool)
    requires forall i | 0 <= i < |upcoming| :: !IsAdministered(upcoming[i])
    requires forall i | 0 <= i < |completed| :: IsAdministered(completed[i])
    ensures var cards := UpcomingCards(upcoming, childName, hasOnSchedule, hasOnMarkComplete) + CompletedCards(completed, childName);
            && |cards| == |upcoming| + |completed|
            && (forall i | 0 <= i < |upcoming| ::
                  cards[i].vaccination == upcoming[i]
                  && cards[i].canSchedule == hasOnSchedule && cards[i].canMarkComplete == hasOnMarkComplete)
            && (forall i | |upcoming| <= i < |cards| ::
                  cards[i].vaccination == completed[i - |upcoming|]
                  && !cards[i].canSchedule && !cards[i].canMarkComplete)
            && (forall i | 0 <= i < |cards| ::
                  && (cards[i].canSchedule ==> hasOnSchedule && !IsAdministered(cards[i].vaccination))
                  && (cards[i].canMarkComplete ==> hasOnMarkComplete && !IsAdministered(cards[i].vaccination)))
  {
    var up := UpcomingCards(upcoming, childName, hasOnSchedule, hasOnMarkComplete);
    var cards := up + CompletedCards(completed, childName);
    forall i | 0 <= i < |cards|
      ensures i < |up| ==> cards[i] == Card(upcoming[i], childName, hasOnSchedule, hasOnMarkComplete)
      ensures i >= |up| ==> cards[i] == Card(completed[i - |up|], childName, false, false)
      ensures cards[i].canSchedule ==> hasOnSchedule && !IsAdministered(cards[i].vaccination)
      ensures cards[i].canMarkComplete ==> hasOnMarkComplete && !IsAdministered(cards[i].vaccination)
    {
      if i >= |up| {
        assert cards[i] == CompletedCards(completed, childName)[i - |up|];
      }
    }
  }
}
