/**
 * The text of the vaccine information page: the English ordinal suffix of the
 * full schedule table, the recommended-age label of a dose, and the dose lines
 * of the accordion and of the table.
 */
module VaccineInfoPage {
  import opened Text
  import opened VaccinationData

  /** JavaScript's `%`: truncating division, so the remainder takes the sign of `a`. */
  function JsRem(a: int, b: int): (r: int)
    requires b > 0
    ensures a >= 0 ==> r == a % b
    ensures -b < r < b
  {
    if a >= 0 then a % b else -((-a) % b)
  }

  /** `getOrdinalSuffix`. */
  function OrdinalSuffix(num: int): string
  {
    var j := JsRem(num, 10);
    var k := JsRem(num, 100);
    if j == 1 && k != 11 then "st"
    else if j == 2 && k != 12 then "nd"
    else if j == 3 && k != 13 then "rd"
    else "th"
  }

  /**
   * For a positive number: "st" when the last digit is 1 and the last two are not
   * 11, "nd" and "rd" likewise for 2 and 3, and "th" otherwise. This restates the
   * branches with `%` in place of the truncating remainder, which agree on naturals;
   * the last clause shows the four suffixes cover every natural.
   */
  lemma OrdinalSuffixRule(n: nat)
    ensures OrdinalSuffix(n) == "st" <==> n % 10 == 1 && n % 100 != 11
    ensures OrdinalSuffix(n) == "nd" <==> n % 10 == 2 && n % 100 != 12
    ensures OrdinalSuffix(n) == "rd" <==> n % 10 == 3 && n % 100 != 13
    ensures OrdinalSuffix(n) == "th" <==>
      !(n % 10 == 1 && n % 100 != 11) && !(n % 10 == 2 && n % 100 != 12) && !(n % 10 == 3 && n % 100 != 13)
  {
  }

  /** The suffix of a non-negative number depends only on its last two digits. */
  lemma OrdinalSuffixLastTwoDigits(n: nat)
    ensures OrdinalSuffix(n) == OrdinalSuffix(n % 100)
  {
    var r := n % 100;
    LastDigitOfLastTwo(n);
    assert r % 100 == r;
    assert JsRem(n, 10) == JsRem(r, 10);
    assert JsRem(n, 100) == JsRem(r, 100);
  }

  lemma LastDigitOfLastTwo(n: nat)
    ensures n % 10 == (n % 100) % 10
  {
    var q, r := n / 100, n % 100;
    var u, t := r / 10, r % 10;
    assert n == 10 * (10 * q + u) + t;
    LastDigit(n, 10 * q + u, t);
  }

  lemma LastDigit(n: int, k: int, t: int)
    requires n == 10 * k + t && 0 <= t < 10
    ensures n % 10 == t
  {
  }

  lemma OrdinalSuffixExamples()
    ensures OrdinalSuffix(1) == "st" && OrdinalSuffix(2) == "nd" && OrdinalSuffix(3) == "rd"
    ensures OrdinalSuffix(11) == "th" && OrdinalSuffix(12) == "th" && OrdinalSuffix(13) == "th"
    ensures OrdinalSuffix(111) == "th"
    ensures OrdinalSuffix(21) == "st" && OrdinalSuffix(22) == "nd" && OrdinalSuffix(23) == "rd"
  {
  }

  /**
   * The table's "1st", "2nd", ... agree with the dose names of the schedule for
   * dose numbers 1 to 20, and disagree from 21 to 23, where the schedule writes
   * "21th", "22th" and "23th".
   */
  lemma OrdinalSuffixAgreesWithDoseOrdinal(n: int)
    requires 1 <= n <= 23
    ensures n <= 20 ==> DoseOrdinal(n) == NatToString(n) + OrdinalSuffix(n) + " dose"
    ensures 21 <= n ==> DoseOrdinal(n) != NatToString(n) + OrdinalSuffix(n) + " dose"
  {
    if n <= 3 {
      assert NatToString(n) == [DigitChar(n)];
    } else if n <= 20 {
      SuffixTh(n);
    } else {
      SuffixNotTh(n);
    }
  }

  lemma SuffixTh(n: int)
    requires 4 <= n <= 20
    ensures DoseOrdinal(n) == NatToString(n) + OrdinalSuffix(n) + " dose"
  {
    assert OrdinalSuffix(n) == "th";
    var t := NatToString(n);
    assert DoseOrdinal(n) == t + "th dose";
    assert t + "th dose" == t + "th" + " dose";
  }

  lemma SuffixNotTh(n: int)
    requires 21 <= n <= 23
    ensures DoseOrdinal(n) != NatToString(n) + OrdinalSuffix(n) + " dose"
  {
    var t, suffix := NatToString(n), OrdinalSuffix(n);
    assert suffix != "th";
    assert DoseOrdinal(n) == t + "th" + " dose";
    if DoseOrdinal(n) == t + suffix + " dose" {
      SameAffixes(t, suffix, "th", " dose");
    }
  }

  /** The recommended-age label of a dose given in months. */
  function AgeLabel(ageMonths: int): string
  {
    if ageMonths == 0 then "At birth"
    else if ageMonths < 12 then IntToString(ageMonths) + " months"
    else if ageMonths == 12 then "1 year"
    else if ageMonths < 24 then IntToString(ageMonths) + " months"
    else IntToString(ageMonths / 12) + " years"
  }

  /**
   * Birth, then months up to 23 except for exactly one year, then whole years
   * (at least 2, rounded down). One month reads "1 months". The cases are the
   * branches of the label; the point is the floor bounds on the year count.
   */
  lemma AgeLabelCases(m: nat)
    ensures m == 0 ==> AgeLabel(m) == "At birth"
    ensures m == 12 ==> AgeLabel(m) == "1 year"
    ensures 0 < m < 24 && m != 12 ==> AgeLabel(m) == NatToString(m) + " months"
    ensures 24 <= m ==>
      && AgeLabel(m) == NatToString(m / 12) + " years"
      && 2 <= m / 12
      && 12 * (m / 12) <= m < 12 * (m / 12 + 1)
    ensures AgeLabel(1) == "1 months"
  {
  }

  /** An accordion line: "Dose <doseNumber>: <age>". */
  function AccordionDoseLine(d: VaccineDose): string
  {
    "Dose " + IntToString(d.doseNumber) + ": " + AgeLabel(d.ageMonths)
  }

  /** The accordion's dose lines, one per dose in list order. */
  function AccordionDoseLines(v: VaccineScheduleItem): seq<string>
  {
    seq(|v.doses|, i requires 0 <= i < |v.doses| => AccordionDoseLine(v.doses[i]))
  }

  /** The table's dose lines: numbered by position in the list, "1st dose: <age>", ... */
  function TableDoseLines(v: VaccineScheduleItem): seq<string>
  {
    seq(|v.doses|, i requires 0 <= i < |v.doses| =>
      IntToString(i + 1) + OrdinalSuffix(i + 1) + " dose: " + AgeLabel(v.doses[i].ageMonths))
  }

  predicate NumberedByPosition(v: VaccineScheduleItem)
  {
    forall i | 0 <= i < |v.doses| :: v.doses[i].doseNumber == i + 1
  }

  /**
   * Numbering by position gives the same numbers as `doseNumber` for this table:
   * every vaccine lists its doses 1, 2, 3, ... in order.
   */
  lemma TableNumberedByPosition()
    ensures forall k | 0 <= k < |VaccineSchedule| :: NumberedByPosition(VaccineSchedule[k])
  {
    assert NumberedByPosition(HepB);
    assert NumberedByPosition(Rotavirus);
    assert NumberedByPosition(DTaP);
    assert NumberedByPosition(Hib);
    assert NumberedByPosition(PCV13);
    assert NumberedByPosition(IPV);
    assert NumberedByPosition(Influenza);
    assert NumberedByPosition(MMR);
    assert NumberedByPosition(Varicella);
    assert NumberedByPosition(HepA);
  }

  /** For a vaccine of the table, the table line of each dose carries the dose's own number. */
  lemma TableLinesShowDoseNumbers(k: int, i: int)
    requires 0 <= k < |VaccineSchedule| && 0 <= i < |VaccineSchedule[k].doses|
    ensures var d := VaccineSchedule[k].doses[i];
            TableDoseLines(VaccineSchedule[k])[i]
            == IntToString(d.doseNumber) + OrdinalSuffix(d.doseNumber) + " dose: " + AgeLabel(d.ageMonths)
  {
    TableNumberedByPosition();
  }

  /**
   * For a vaccine of the table, the accordion and the table describe each dose
   * alike: the same dose number (the table's position count) and the same age label.
   */
  lemma AccordionMatchesTable(k: int, i: int)
    requires 0 <= k < |VaccineSchedule| && 0 <= i < |VaccineSchedule[k].doses|
    ensures var v := VaccineSchedule[k];
            var d := v.doses[i];
            var n, age := IntToString(d.doseNumber), AgeLabel(d.ageMonths);
            && d.doseNumber == i + 1
            && |AccordionDoseLines(v)| == |TableDoseLines(v)| == |v.doses|
            && AccordionDoseLines(v)[i] == "Dose " + n + ": " + age
            && TableDoseLines(v)[i] == n + OrdinalSuffix(d.doseNumber) + " dose: " + age
  {
    TableNumberedByPosition();
    TableLinesShowDoseNumbers(k, i);
  }
}
