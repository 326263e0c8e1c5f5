/**
 * The recommended-dose table (`vaccineSchedule`), the schedule generator that
 * projects it onto a birth date, the dose labels, the completion-percentage
 * calculator and the three information categories.
 */
module VaccinationData {
  import opened Dates
  import opened Text
  import opened Seqs
  import opened Sorting

  datatype VaccineDose = VaccineDose(doseNumber: int, ageMonths: int)

  datatype VaccineScheduleItem = VaccineScheduleItem(
    id: string,
    name: string,
    fullName: string,
    description: string,
    ageMonths: int,
    doses: seq<VaccineDose>)

  const HepB := VaccineScheduleItem(
    "hepb", "HepB", "Hepatitis B",
    "Protects against hepatitis B, a serious liver disease.",
    0, [VaccineDose(1, 0), VaccineDose(2, 1), VaccineDose(3, 6)])

  const Rotavirus := VaccineScheduleItem(
    "rotavirus", "RV", "Rotavirus",
    "Protects against rotavirus, which causes severe diarrhea and dehydration.",
    2, [VaccineDose(1, 2), VaccineDose(2, 4), VaccineDose(3, 6)])

  const DTaP := VaccineScheduleItem(
    "dtap", "DTaP", "Diphtheria, Tetanus, & acellular Pertussis",
    "Protects against diphtheria, tetanus, and pertussis (whooping cough).",
    2, [VaccineDose(1, 2), VaccineDose(2, 4), VaccineDose(3, 6), VaccineDose(4, 15), VaccineDose(5, 48)])

  const Hib := VaccineScheduleItem(
    "hib", "Hib", "Haemophilus influenzae type b",
    "Protects against Haemophilus influenzae type b, which can cause meningitis and other serious infections.",
    2, [VaccineDose(1, 2), VaccineDose(2, 4), VaccineDose(3, 6), VaccineDose(4, 12)])

  const PCV13 := VaccineScheduleItem(
    "pcv13", "PCV13", "Pneumococcal conjugate",
    "Protects against pneumococcal disease, which can cause ear infections, pneumonia, and meningitis.",
    2, [VaccineDose(1, 2), VaccineDose(2, 4), VaccineDose(3, 6), VaccineDose(4, 12)])

  const IPV := VaccineScheduleItem(
    "ipv", "IPV", "Inactivated Poliovirus",
    "Protects against polio, a disease that can cause paralysis.",
    2, [VaccineDose(1, 2), VaccineDose(2, 4), VaccineDose(3, 6), VaccineDose(4, 48)])

  const Influenza := VaccineScheduleItem(
    "influenza", "Flu", "Influenza",
    "Protects against seasonal influenza (flu). Recommended annually.",
    6, [VaccineDose(1, 6)])

  const MMR := VaccineScheduleItem(
    "mmr", "MMR", "Measles, Mumps, & Rubella",
    "Protects against measles, mumps, and rubella.",
    12, [VaccineDose(1, 12), VaccineDose(2, 48)])

  const Varicella := VaccineScheduleItem(
    "varicella", "Varicella", "Chickenpox",
    "Protects against chickenpox.",
    12, [VaccineDose(1, 12), VaccineDose(2, 48)])

  const HepA := VaccineScheduleItem(
    "hepa", "HepA", "Hepatitis A",
    "Protects against hepatitis A, a liver disease.",
    12, [VaccineDose(1, 12), VaccineDose(2, 18)])

  /** The static table, in the order the generator and the calculator walk it. */
  const VaccineSchedule: seq<VaccineScheduleItem> :=
    [HepB, Rotavirus, DTaP, Hib, PCV13, IPV, Influenza, MMR, Varicella, HepA]

  /** One (vaccine, dose) pair of the table. */
  datatype TableDose = TableDose(vaccine: VaccineScheduleItem, dose: VaccineDose)

  function DosesOf(v: VaccineScheduleItem): seq<TableDose>
  {
    seq(|v.doses|, j requires 0 <= j < |v.doses| => TableDose(v, v.doses[j]))
  }

  /** The inner loop visits exactly the vaccine's own doses, each paired with the vaccine. */
  lemma DosesOfMembers(v: VaccineScheduleItem, p: TableDose)
    ensures p in DosesOf(v) <==> p.vaccine == v && p.dose in v.doses
  {
    var ps := DosesOf(v);
    if p.vaccine == v && p.dose in v.doses {
      var j :| 0 <= j < |v.doses| && v.doses[j] == p.dose;
      assert ps[j] == p;
    }
  }

  /** The pairs visited by `for (vaccine of vs) for (dose of vaccine.doses)`, in visiting order. */
  function Flatten(vs: seq<VaccineScheduleItem>): seq<TableDose>
  {
    if |vs| == 0 then [] else Flatten(vs[..|vs| - 1]) + DosesOf(vs[|vs| - 1])
  }

  function TableDoses(): seq<TableDose>
  {
    Flatten(VaccineSchedule)
  }

  /** Number of doses listed by the vaccines of `vs`. */
  function DoseTotal(vs: seq<VaccineScheduleItem>): nat
  {
    if |vs| == 0 then 0 else DoseTotal(vs[..|vs| - 1]) + |vs[|vs| - 1].doses|
  }

  lemma {:induction false} FlattenLength(vs: seq<VaccineScheduleItem>)
    ensures |Flatten(vs)| == DoseTotal(vs)
  {
    if |vs| > 0 {
      FlattenLength(vs[..|vs| - 1]);
    }
  }

  /** Taking one more vaccine of the table adds its doses to the total. */
  lemma DoseTotalStep(vs: seq<VaccineScheduleItem>, k: nat)
    requires k < |vs|
    ensures DoseTotal(vs[..k + 1]) == DoseTotal(vs[..k]) + |vs[k].doses|
  {
    assert vs[..k + 1][..k] == vs[..k];
  }

  /** The table holds 30 doses. */
  lemma TableDoseCount()
    ensures |TableDoses()| == 30
  {
    var vs := VaccineSchedule;
    FlattenLength(vs);
    assert vs[..0] == [];
    DoseTotalStep(vs, 0);
    DoseTotalStep(vs, 1);
    DoseTotalStep(vs, 2);
    DoseTotalStep(vs, 3);
    DoseTotalStep(vs, 4);
    DoseTotalStep(vs, 5);
    DoseTotalStep(vs, 6);
    DoseTotalStep(vs, 7);
    DoseTotalStep(vs, 8);
    DoseTotalStep(vs, 9);
    assert vs[..10] == vs;
  }

  lemma FlattenStep(vs: seq<VaccineScheduleItem>, k: nat)
    requires k < |vs|
    ensures Flatten(vs[..k + 1]) == Flatten(vs[..k]) + DosesOf(vs[k])
  {
    assert vs[..k + 1][..k] == vs[..k];
  }

  /** Flattening distributes over concatenation of tables. */
  lemma {:induction false} FlattenAppend(a: seq<VaccineScheduleItem>, b: seq<VaccineScheduleItem>)
    ensures Flatten(a + b) == Flatten(a) + Flatten(b)
    decreases |b|
  {
    if |b| == 0 {
      assert a + b == a;
    } else {
      var ab := a + b;
      assert ab[..|ab| - 1] == a + b[..|b| - 1];
      assert ab[|ab| - 1] == b[|b| - 1];
      FlattenAppend(a, b[..|b| - 1]);
    }
  }

  /** Every dose of `v` is given at `m` months or later. */
  predicate VaccineFrom(v: VaccineScheduleItem, m: int)
  {
    forall j | 0 <= j < |v.doses| :: v.doses[j].ageMonths >= m
  }

  /** Every dose listed by the vaccines of `vs` is given at `m` months or later. */
  predicate DosesFrom(vs: seq<VaccineScheduleItem>, m: int)
  {
    forall k | 0 <= k < |vs| :: VaccineFrom(vs[k], m)
  }

  lemma {:induction false} FlattenDosesFrom(vs: seq<VaccineScheduleItem>, m: int)
    requires DosesFrom(vs, m)
    ensures forall i | 0 <= i < |Flatten(vs)| :: Flatten(vs)[i].dose.ageMonths >= m
  {
    if |vs| > 0 {
      var init := vs[..|vs| - 1];
      assert DosesFrom(init, m) by {
        forall k | 0 <= k < |init|
          ensures VaccineFrom(init[k], m)
        {
          assert init[k] == vs[k];
        }
      }
      FlattenDosesFrom(init, m);
      var last := DosesOf(vs[|vs| - 1]);
      assert VaccineFrom(vs[|vs| - 1], m);
      forall i | 0 <= i < |Flatten(vs)|
        ensures Flatten(vs)[i].dose.ageMonths >= m
      {
        if i >= |Flatten(init)| {
          assert Flatten(vs)[i] == last[i - |Flatten(init)|];
        }
      }
    }
  }

  /** "1st dose", "2nd dose", "3rd dose", and "<n>th dose" for every other number. */
  function DoseOrdinal(doseNumber: int): string
  {
    if doseNumber == 1 then "1st dose"
    else if doseNumber == 2 then "2nd dose"
    else if doseNumber == 3 then "3rd dose"
    else IntToString(doseNumber) + "th dose"
  }

  /** Every label is the number, a two-letter suffix and " dose". */
  lemma DoseOrdinalShape(n: int)
    ensures var s := DoseOrdinal(n);
            |s| == |IntToString(n)| + 7 && s[..|IntToString(n)|] == IntToString(n)
            && s[|IntToString(n)| + 2..] == " dose"
  {
    var t := IntToString(n);
    if 1 <= n <= 3 {
      assert t == [DigitChar(n)];
    } else {
      var line := t + "th dose";
      assert DoseOrdinal(n) == line;
      assert line[..|t|] == t;
      assert line[|t| + 2..] == " dose";
    }
  }

  /** Two dose numbers never share a label, so a dose name identifies its dose. */
  lemma DoseOrdinalInjective(a: int, b: int)
    ensures DoseOrdinal(a) == DoseOrdinal(b) ==> a == b
  {
    if DoseOrdinal(a) == DoseOrdinal(b) {
      DoseOrdinalShape(a);
      DoseOrdinalShape(b);
      var sa, sb := IntToString(a), IntToString(b);
      assert |sa| == |sb|;
      assert sa == DoseOrdinal(a)[..|sa|];
      IntToStringInjective(a, b);
    }
  }

  /** No "11th"/"12th"/"13th" special case is needed, and none gives "st"/"nd"/"rd" past 3. */
  lemma DoseOrdinalEleven()
    ensures DoseOrdinal(11) == "11th dose"
  {
    assert NatToString(11) == NatToString(1) + [DigitChar(1)];
  }

  lemma DoseOrdinalTwentyFirst()
    ensures DoseOrdinal(21) == "21th dose"
    ensures DoseOrdinal(22) == "22th dose"
  {
    TwentiesOrdinal(21);
    TwentiesOrdinal(22);
  }

  lemma TwentiesOrdinal(n: int)
    requires 20 <= n < 30
    ensures DoseOrdinal(n) == ['2', DigitChar(n % 10)] + "th dose"
  {
    var t := NatToString(n);
    assert t == NatToString(2) + [DigitChar(n % 10)];
    assert NatToString(2) == ['2'];
    assert DoseOrdinal(n) == t + "th dose";
  }

  /** `${vaccine.name} ${getDoseOrdinal(dose.doseNumber)}`: the join key to recorded vaccinations. */
  function DoseName(p: TableDose): string
  {
    p.vaccine.name + " " + DoseOrdinal(p.dose.doseNumber)
  }

  datatype ScheduledVaccination = ScheduledVaccination(
    name: string,
    fullName: string,
    doseNumber: int,
    scheduledDate: Date,
    description: string)

  /** The generated entry for one table pair. */
  predicate IsEntryFor(e: ScheduledVaccination, birthDate: Date, p: TableDose)
  {
    && e.name == DoseName(p)
    && e.fullName == p.vaccine.fullName + " " + DoseOrdinal(p.dose.doseNumber)
    && e.doseNumber == p.dose.doseNumber
    && e.scheduledDate == AddMonths(birthDate, p.dose.ageMonths)
    && e.description == p.vaccine.description
  }

  function EntryFor(birthDate: Date, p: TableDose): ScheduledVaccination
  {
    ScheduledVaccination(
      DoseName(p),
      p.vaccine.fullName + " " + DoseOrdinal(p.dose.doseNumber),
      p.dose.doseNumber,
      AddMonths(birthDate, p.dose.ageMonths),
      p.vaccine.description)
  }

  /** The entries in table order, before sorting. */
  function EntriesFor(birthDate: Date, ps: seq<TableDose>): seq<ScheduledVaccination>
  {
    seq(|ps|, k requires 0 <= k < |ps| => EntryFor(birthDate, ps[k]))
  }

  function ScheduledDay(e: ScheduledVaccination): int
  {
    DayNumber(e.scheduledDate)
  }

  /** Visiting dose `j` of `v` extends the visited pairs by that one pair. */
  lemma VisitStep(before: seq<TableDose>, v: VaccineScheduleItem, j: nat)
    requires j < |v.doses|
    ensures before + DosesOf(v)[..j + 1] == before + DosesOf(v)[..j] + [TableDose(v, v.doses[j])]
  {
    assert DosesOf(v)[..j + 1] == DosesOf(v)[..j] + [DosesOf(v)[j]];
  }

  /** Visiting one more dose appends its entry. */
  lemma EntriesSnoc(birthDate: Date, ps: seq<TableDose>, p: TableDose)
    ensures EntriesFor(birthDate, ps + [p]) == EntriesFor(birthDate, ps) + [EntryFor(birthDate, p)]
  {
  }

  /**
   * The two loops of `generateVaccinationSchedule`, over a table `vs`: one
   * entry per (vaccine, dose) pair, in visiting order.
   */
  method TableEntries(birthDate: Date, vs: seq<VaccineScheduleItem>) returns (vaccinations: seq<ScheduledVaccination>)
    ensures vaccinations == EntriesFor(birthDate, Flatten(vs))
  {
    vaccinations := [];
    ghost var seen: seq<TableDose> := [];
    var i := 0;
    while i < |vs|
      invariant 0 <= i <= |vs|
      invariant seen == Flatten(vs[..i])
      invariant vaccinations == EntriesFor(birthDate, seen)
    {
      var vaccine := vs[i];
      ghost var visited := seen;
      var j := 0;
      assert seen + DosesOf(vaccine)[..j] == seen;
      while j < |vaccine.doses|
        invariant 0 <= j <= |vaccine.doses|
        invariant visited == seen + DosesOf(vaccine)[..j]
        invariant vaccinations == EntriesFor(birthDate, visited)
      {
        var dose := vaccine.doses[j];
        ghost var p := TableDose(vaccine, dose);
        EntriesSnoc(birthDate, visited, p);
        vaccinations := vaccinations + [EntryFor(birthDate, TableDose(vaccine, dose))];
        VisitStep(seen, vaccine, j);
        visited := visited + [p];
        j := j + 1;
      }
      assert DosesOf(vaccine)[..j] == DosesOf(vaccine);
      FlattenStep(vs, i);
      seen := visited;
      i := i + 1;
    }
    assert vs[..i] == vs;
  }

  /**
   * `generateVaccinationSchedule`: one entry per (vaccine, dose) pair of the
   * table, 30 in all, then sorted by date.
   */
  method GenerateVaccinationSchedule(birthDate: Date) returns (r: seq<ScheduledVaccination>)
    ensures |r| == 30
    ensures SortedBy(r, ScheduledDay)
    ensures multiset(r) == multiset(EntriesFor(birthDate, TableDoses()))
    ensures forall e | e in r :: exists k | 0 <= k < |TableDoses()| :: IsEntryFor(e, birthDate, TableDoses()[k])
  {
    var vaccinations := TableEntries(birthDate, VaccineSchedule);
    TableDoseCount();
    r := SortedCopy(vaccinations, ScheduledDay);
    assert |r| == |multiset(r)| == |vaccinations|;
    EntriesComeFromTable(birthDate, TableDoses(), r);
  }

  lemma EntriesComeFromTable(birthDate: Date, ps: seq<TableDose>, r: seq<ScheduledVaccination>)
    requires multiset(r) == multiset(EntriesFor(birthDate, ps))
    ensures forall e | e in r :: exists k | 0 <= k < |ps| :: IsEntryFor(e, birthDate, ps[k])
  {
    var es := EntriesFor(birthDate, ps);
    forall e | e in r
      ensures exists k | 0 <= k < |ps| :: IsEntryFor(e, birthDate, ps[k])
    {
      assert e in multiset(es);
      var k :| 0 <= k < |es| && es[k] == e;
      assert IsEntryFor(e, birthDate, ps[k]);
    }
  }

  /**
   * `calculateAgeInMonths`: whole calendar months between the two dates,
   * ignoring the day of the month.
   */
  function AgeInMonths(birthDate: Date, today: Date): (m: int)
    ensures birthDate.year == today.year && birthDate.month == today.month ==> m == 0
    ensures m < 0 <==> 12 * today.year + today.month < 12 * birthDate.year + birthDate.month
  {
    (today.year - birthDate.year) * 12 + (today.month - birthDate.month)
  }

  /** Number of pairs in `ps` that are due at `age` months. */
  function DueCount(ps: seq<TableDose>, age: int): (n: nat)
    ensures n <= |ps|
  {
    if |ps| == 0 then 0
    else DueCount(ps[..|ps| - 1], age) + (if ps[|ps| - 1].dose.ageMonths <= age then 1 else 0)
  }

  /** Number of pairs in `ps` that are due at `age` months and whose name is in `completed`. */
  function DoneCount(ps: seq<TableDose>, age: int, completed: seq<string>): nat
  {
    if |ps| == 0 then 0
    else
      var p := ps[|ps| - 1];
      DoneCount(ps[..|ps| - 1], age, completed)
      + (if p.dose.ageMonths <= age && DoseName(p) in completed then 1 else 0)
  }

  lemma {:induction false} DoneAtMostDue(ps: seq<TableDose>, age: int, completed: seq<string>)
    ensures DoneCount(ps, age, completed) <= DueCount(ps, age)
  {
    if |ps| > 0 {
      DoneAtMostDue(ps[..|ps| - 1], age, completed);
    }
  }

  /** Visiting one more dose adds at most one to each count. */
  lemma CountSnoc(ps: seq<TableDose>, p: TableDose, age: int, completed: seq<string>)
    ensures DueCount(ps + [p], age) == DueCount(ps, age) + (if p.dose.ageMonths <= age then 1 else 0)
    ensures DoneCount(ps + [p], age, completed)
            == DoneCount(ps, age, completed) + (if p.dose.ageMonths <= age && DoseName(p) in completed then 1 else 0)
  {
    assert (ps + [p])[..|ps|] == ps;
  }

  /**
   * `Math.round(num / den)` for a non-negative ratio: the nearest integer,
   * halves rounded up.
   */
  function RoundRatio(num: nat, den: int): (r: int)
    requires den > 0
    ensures den * (2 * r - 1) <= 2 * num < den * (2 * r + 1)
  {
    var r := (2 * num + den) / (2 * den);
    assert 2 * den * r <= 2 * num + den < 2 * den * r + 2 * den;
    r
  }

  lemma RoundRatioPercent(done: nat, total: int)
    requires 0 < total && done <= total
    ensures 0 <= RoundRatio(100 * done, total) <= 100
  {
    var r := RoundRatio(100 * done, total);
    if r > 100 {
      ScaleMonotone(total, 201, 2 * r - 1);
    }
    if r < 0 {
      ScaleMonotone(total, 2 * r + 1, -1);
    }
  }

  lemma ScaleMonotone(a: int, b: int, c: int)
    requires a > 0 && b <= c
    ensures a * b <= a * c
  {
    assert a * c - a * b == a * (c - b);
  }

  /** The percentage `calculateVaccinationProgress` returns at a given age in months. */
  function Progress(age: int, completed: seq<string>): int
  {
    var total := DueCount(TableDoses(), age);
    if total == 0 then 100 else RoundRatio(100 * DoneCount(TableDoses(), age, completed), total)
  }

  /**
   * The two loops of `calculateVaccinationProgress`, over a table `vs`: the
   * number of doses due at `ageInMonths` and how many of them are named in
   * `completed`.
   */
  method CountDoses(vs: seq<VaccineScheduleItem>, ageInMonths: int, completed: seq<string>)
    returns (totalDoses: nat, completedDoses: nat)
    ensures totalDoses == DueCount(Flatten(vs), ageInMonths)
    ensures completedDoses == DoneCount(Flatten(vs), ageInMonths, completed)
  {
    totalDoses, completedDoses := 0, 0;
    ghost var seen: seq<TableDose> := [];
    var i := 0;
    while i < |vs|
      invariant 0 <= i <= |vs|
      invariant seen == Flatten(vs[..i])
      invariant totalDoses == DueCount(seen, ageInMonths)
      invariant completedDoses == DoneCount(seen, ageInMonths, completed)
    {
      var vaccine := vs[i];
      ghost var visited := seen;
      var j := 0;
      assert seen + DosesOf(vaccine)[..j] == seen;
      while j < |vaccine.doses|
        invariant 0 <= j <= |vaccine.doses|
        invariant visited == seen + DosesOf(vaccine)[..j]
        invariant totalDoses == DueCount(visited, ageInMonths)
        invariant completedDoses == DoneCount(visited, ageInMonths, completed)
      {
        var dose := vaccine.doses[j];
        ghost var p := TableDose(vaccine, dose);
        CountSnoc(visited, p, ageInMonths, completed);
        if dose.ageMonths <= ageInMonths {
          totalDoses := totalDoses + 1;
          var doseName := vaccine.name + " " + DoseOrdinal(dose.doseNumber);
          assert doseName == DoseName(p);
          if doseName in completed {
            completedDoses := completedDoses + 1;
          }
        }
        VisitStep(seen, vaccine, j);
        visited := visited + [p];
        j := j + 1;
      }
      assert DosesOf(vaccine)[..j] == DosesOf(vaccine);
      FlattenStep(vs, i);
      seen := visited;
      i := i + 1;
    }
    assert vs[..i] == vs;
  }

  /**
   * `calculateVaccinationProgress`: counts the doses due by now and those of
   * them whose name appears in `completed`, and returns the rounded
   * percentage, or 100 when nothing is due yet.
   */
  method CalculateVaccinationProgress(birthDate: Date, today: Date, completed: seq<string>)
    returns (percent: int)
    ensures percent == Progress(AgeInMonths(birthDate, today), completed)
    ensures 0 <= percent <= 100
  {
    var ageInMonths := AgeInMonths(birthDate, today);
    var totalDoses, completedDoses := CountDoses(VaccineSchedule, ageInMonths, completed);
    if totalDoses == 0 {
      percent := 100;
    } else {
      DoneAtMostDue(TableDoses(), ageInMonths, completed);
      RoundRatioPercent(completedDoses, totalDoses);
      percent := RoundRatio(100 * completedDoses, totalDoses);
    }
  }

  lemma {:induction false} DueCountAppend(a: seq<TableDose>, b: seq<TableDose>, age: int)
    ensures DueCount(a + b, age) == DueCount(a, age) + DueCount(b, age)
    decreases |b|
  {
    if |b| > 0 {
      assert (a + b)[..|a + b| - 1] == a + b[..|b| - 1];
      DueCountAppend(a, b[..|b| - 1], age);
    } else {
      assert a + b == a;
    }
  }

  lemma {:induction false} DueCountNone(ps: seq<TableDose>, age: int)
    requires forall i | 0 <= i < |ps| :: ps[i].dose.ageMonths > age
    ensures DueCount(ps, age) == 0
  {
    if |ps| > 0 {
      DueCountNone(ps[..|ps| - 1], age);
    }
  }

  lemma {:induction false} DoneCountAll(ps: seq<TableDose>, age: int, completed: seq<string>)
    requires forall i | 0 <= i < |ps| :: ps[i].dose.ageMonths <= age ==> DoseName(ps[i]) in completed
    ensures DoneCount(ps, age, completed) == DueCount(ps, age)
  {
    if |ps| > 0 {
      DoneCountAll(ps[..|ps| - 1], age, completed);
    }
  }

  lemma {:induction false} DoneCountNone(ps: seq<TableDose>, age: int)
    ensures DoneCount(ps, age, []) == 0
  {
    if |ps| > 0 {
      DoneCountNone(ps[..|ps| - 1], age);
    }
  }

  /** Every dose of the table is given at birth or later. */
  lemma TableAgesNonNegative()
    ensures forall i | 0 <= i < |TableDoses()| :: TableDoses()[i].dose.ageMonths >= 0
  {
    assert VaccineFrom(HepB, 0);
    RestFromOneMonth();
    assert DosesFrom(VaccineSchedule, 0);
    FlattenDosesFrom(VaccineSchedule, 0);
  }

  /** After HepB, every vaccine of the table starts at one month or later. */
  lemma RestFromOneMonth()
    ensures DosesFrom(VaccineSchedule[1..], 1)
  {
    assert VaccineFrom(Rotavirus, 1);
    assert VaccineFrom(DTaP, 1);
    assert VaccineFrom(Hib, 1);
    assert VaccineFrom(PCV13, 1);
    assert VaccineFrom(IPV, 1);
    assert VaccineFrom(Influenza, 1);
    assert VaccineFrom(MMR, 1);
    assert VaccineFrom(Varicella, 1);
    assert VaccineFrom(HepA, 1);
  }

  /** Before the month of birth nothing is due, and the progress is 100. */
  lemma ProgressBeforeBirth(age: int, completed: seq<string>)
    requires age < 0
    ensures Progress(age, completed) == 100
  {
    TableAgesNonNegative();
    DueCountNone(TableDoses(), age);
  }

  /** Of the HepB doses only the first is given in the month of birth. */
  lemma HepBDueAtBirth()
    ensures DueCount(DosesOf(HepB), 0) == 1
  {
    var ps := DosesOf(HepB);
    assert DueCount(ps[..1], 0) == 1 by {
      assert ps[..1][..0] == [];
    }
    assert DueCount(ps[..2], 0) == 1 by {
      assert ps[..2][..1] == ps[..1];
    }
    assert ps[..3] == ps;
    assert ps[..3][..2] == ps[..2];
  }

  /** In the month of birth exactly one dose (HepB 1st) is due. */
  lemma OneDoseDueAtBirth()
    ensures DueCount(TableDoses(), 0) == 1
  {
    var rest := VaccineSchedule[1..];
    assert VaccineSchedule == [HepB] + rest;
    HepBDueAtBirth();
    RestFromOneMonth();
    OneDueFirst(HepB, rest);
  }

  /** A table whose first vaccine has one dose at birth and whose others start later has one dose due at birth. */
  lemma OneDueFirst(first: VaccineScheduleItem, rest: seq<VaccineScheduleItem>)
    requires DueCount(DosesOf(first), 0) == 1
    requires DosesFrom(rest, 1)
    ensures DueCount(Flatten([first] + rest), 0) == 1
  {
    var a, b := DosesOf(first), Flatten(rest);
    FlattenCons(first, rest);
    NoneDueAtBirth(rest);
    DueCountAppend(a, b, 0);
  }

  lemma FlattenCons(first: VaccineScheduleItem, rest: seq<VaccineScheduleItem>)
    ensures Flatten([first] + rest) == DosesOf(first) + Flatten(rest)
  {
    FlattenAppend([first], rest);
    FlattenStep([first], 0);
    assert [first][..1] == [first] && [first][..0] == [];
  }

  lemma NoneDueAtBirth(rest: seq<VaccineScheduleItem>)
    requires DosesFrom(rest, 1)
    ensures DueCount(Flatten(rest), 0) == 0
  {
    FlattenDosesFrom(rest, 1);
    DueCountNone(Flatten(rest), 0);
  }

  /** A newborn with nothing recorded is at 0 percent, not 100. */
  lemma ProgressAtBirth()
    ensures Progress(0, []) == 0
  {
    OneDoseDueAtBirth();
    ProgressNoneCompleted(0);
  }

  /** When every due dose is recorded as completed the progress is 100. */
  lemma ProgressAllCompleted(age: int, completed: seq<string>)
    requires forall i | 0 <= i < |TableDoses()| ::
      TableDoses()[i].dose.ageMonths <= age ==> DoseName(TableDoses()[i]) in completed
    ensures Progress(age, completed) == 100
  {
    DoneCountAll(TableDoses(), age, completed);
    var total := DueCount(TableDoses(), age);
    if total > 0 {
      RoundRatioWhole(total);
    }
  }

  lemma RoundRatioWhole(total: int)
    requires total > 0
    ensures RoundRatio(100 * total, total) == 100
  {
    var r := RoundRatio(100 * total, total);
    if r > 100 {
      ScaleMonotone(total, 201, 2 * r - 1);
    }
    if r < 100 {
      ScaleMonotone(total, 2 * r + 1, 199);
    }
  }

  /** When doses are due and nothing is recorded, the progress is 0. */
  lemma ProgressNoneCompleted(age: int)
    requires DueCount(TableDoses(), age) > 0
    ensures Progress(age, []) == 0
  {
    DoneCountNone(TableDoses(), age);
    RoundRatioZero(DueCount(TableDoses(), age));
  }

  lemma RoundRatioZero(den: int)
    requires den > 0
    ensures RoundRatio(0, den) == 0
  {
    var r := RoundRatio(0, den);
    if r > 0 {
      ScaleMonotone(den, 1, 2 * r - 1);
    }
    if r < 0 {
      ScaleMonotone(den, 2 * r + 1, -1);
    }
  }

  datatype InfoCategory = InfoCategory(title: string, description: string, vaccines: seq<VaccineScheduleItem>)

  predicate IsInfantVaccine(v: VaccineScheduleItem) { v.ageMonths < 12 }

  predicate IsToddlerVaccine(v: VaccineScheduleItem) { 12 <= v.ageMonths < 36 }

  predicate IsSchoolAgeVaccine(v: VaccineScheduleItem) { v.ageMonths >= 48 }

  /** `vaccineInfoCategories`: the table filtered on each vaccine's own `ageMonths`. */
  function VaccineInfoCategories(): seq<InfoCategory>
  {
    [ InfoCategory("Infant Vaccines (0-12 months)", "Essential vaccines for newborns and infants.",
                   Filter(VaccineSchedule, IsInfantVaccine)),
      InfoCategory("Toddler Vaccines (1-3 years)", "Important follow-up and booster vaccines.",
                   Filter(VaccineSchedule, IsToddlerVaccine)),
      InfoCategory("School-Age Vaccines (4+ years)", "Vaccines required before starting school.",
                   Filter(VaccineSchedule, IsSchoolAgeVaccine)) ]
  }

  /** No vaccine is listed under two categories. */
  lemma InfoCategoriesDisjoint(v: VaccineScheduleItem)
    ensures var cs := VaccineInfoCategories();
            && !(v in cs[0].vaccines && v in cs[1].vaccines)
            && !(v in cs[0].vaccines && v in cs[2].vaccines)
            && !(v in cs[1].vaccines && v in cs[2].vaccines)
  {
    FilterMembership(VaccineSchedule, IsInfantVaccine, v);
    FilterMembership(VaccineSchedule, IsToddlerVaccine, v);
    FilterMembership(VaccineSchedule, IsSchoolAgeVaccine, v);
  }

  /**
   * With this table the first two categories cover every vaccine (seven infant
   * and three toddler vaccines) and the school-age category is empty: its
   * boosters are doses of earlier vaccines, not vaccines of their own.
   */
  lemma InfoCategoriesContents()
    ensures VaccineInfoCategories()[0].vaccines == [HepB, Rotavirus, DTaP, Hib, PCV13, IPV, Influenza]
    ensures VaccineInfoCategories()[1].vaccines == [MMR, Varicella, HepA]
    ensures VaccineInfoCategories()[2].vaccines == []
  {
    var infants := [HepB, Rotavirus, DTaP, Hib, PCV13, IPV, Influenza];
    var toddlers := [MMR, Varicella, HepA];
    assert VaccineSchedule == infants + toddlers;
    InfantCategory(infants, toddlers);
    ToddlerCategory(infants, toddlers);
    SchoolAgeCategory(infants, toddlers);
  }

  lemma InfantCategory(infants: seq<VaccineScheduleItem>, toddlers: seq<VaccineScheduleItem>)
    requires infants == [HepB, Rotavirus, DTaP, Hib, PCV13, IPV, Influenza] && toddlers == [MMR, Varicella, HepA]
    ensures Filter(infants + toddlers, IsInfantVaccine) == infants
  {
    FilterAppend(infants, toddlers, IsInfantVaccine);
    FilterKeepsAll(infants, IsInfantVaccine);
    FilterDropsAll(toddlers, IsInfantVaccine);
  }

  lemma ToddlerCategory(infants: seq<VaccineScheduleItem>, toddlers: seq<VaccineScheduleItem>)
    requires infants == [HepB, Rotavirus, DTaP, Hib, PCV13, IPV, Influenza] && toddlers == [MMR, Varicella, HepA]
    ensures Filter(infants + toddlers, IsToddlerVaccine) == toddlers
  {
    FilterAppend(infants, toddlers, IsToddlerVaccine);
    FilterDropsAll(infants, IsToddlerVaccine);
    FilterKeepsAll(toddlers, IsToddlerVaccine);
  }

  lemma SchoolAgeCategory(infants: seq<VaccineScheduleItem>, toddlers: seq<VaccineScheduleItem>)
    requires infants == [HepB, Rotavirus, DTaP, Hib, PCV13, IPV, Influenza] && toddlers == [MMR, Varicella, HepA]
    ensures Filter(infants + toddlers, IsSchoolAgeVaccine) == []
  {
    FilterAppend(infants, toddlers, IsSchoolAgeVaccine);
    FilterDropsAll(infants, IsSchoolAgeVaccine);
    FilterDropsAll(toddlers, IsSchoolAgeVaccine);
  }
}
