/** The attendance page: the dates of the current month, the one-click
    present/absent toggle, marking everyone for today, adding an employee,
    and the monthly figures with their rating. The current date and the set
    of working days (which needs the weekday of each date) are inputs. */
module AttendancePage {
  import opened Common
  import opened Domain
  import opened LexOrder
  import opened Words

  // ---------------------------------------------------------------------------
  // The days of a month
  // ---------------------------------------------------------------------------

  predicate IsLeapYear(year: int) {
    year % 4 == 0 && (year % 100 != 0 || year % 400 == 0)
  }

  /** `new Date(year, month + 1, 0).getDate()` for a month numbered from 0:
      the number of days of that month in the Gregorian calendar. */
  function DaysInMonth(year: int, month: nat): (n: nat)
    requires month < 12
    ensures 28 <= n <= 31
  {
    if month == 1 then (if IsLeapYear(year) then 29 else 28)
    else if month == 3 || month == 5 || month == 8 || month == 10 then 30
    else 31
  }

  /** `String(n).padStart(2, '0')`. */
  function Pad2(n: nat): string {
    PadStart(NatToString(n), 2, '0')
  }

  /** `${year}-${m}-` with the month padded to two digits. */
  function MonthPrefix(year: nat, month: nat): string {
    NatToString(year) + "-" + Pad2(month + 1) + "-"
  }

  /** `${year}-${m}-${day}` with month and day padded to two digits. */
  function DateKey(year: nat, month: nat, day: nat): string {
    MonthPrefix(year, month) + Pad2(day)
  }

  /** `getMonthDays(year, month)`: one key per day 1..daysInMonth. */
  function MonthDays(year: nat, month: nat): (r: seq<string>)
    requires month < 12
    ensures |r| == DaysInMonth(year, month)
  {
    seq(DaysInMonth(year, month), k requires 0 <= k => DateKey(year, month, k + 1))
  }

  /** Below 100 the padded form is two decimal digits whose value is the
      number. */
  lemma Pad2Digits(n: nat)
    requires n < 100
    ensures |Pad2(n)| == 2 && AllDigits(Pad2(n)) && DigitsValue(Pad2(n)) == n
  {
    DigitsValueOfNatToString(n);
    if n < 10 {
      DigitsValueLeadingZeros(1, NatToString(n));
    } else {
      assert NatToString(n) == NatToString(n / 10) + [DigitChar(n % 10)];
    }
  }

  /** Two-digit strings sort as their values do. */
  lemma TwoDigitsAscending(x: string, y: string)
    requires |x| == 2 && |y| == 2 && AllDigits(x) && AllDigits(y)
    requires DigitsValue(x) < DigitsValue(y)
    ensures LexLt(x, y)
  {
    assert DigitsValue(x) == DigitsValue(x[..1]) * 10 + DigitValue(x[1]);
    assert DigitsValue(y) == DigitsValue(y[..1]) * 10 + DigitValue(y[1]);
    assert x[..1][..0] == [] && y[..1][..0] == [];
    assert DigitsValue(x[..1]) == DigitValue(x[0]);
    assert DigitsValue(y[..1]) == DigitValue(y[0]);
    if x[0] == y[0] {
      assert x[1..] == [x[1]] && y[1..] == [y[1]];
      assert LexLe(x[1..], y[1..]);
    }
  }

  /** Padded numbers below 100 sort as the numbers do. */
  lemma Pad2Ascending(a: nat, b: nat)
    requires a < b < 100
    ensures LexLt(Pad2(a), Pad2(b))
  {
    Pad2Digits(a);
    Pad2Digits(b);
    TwoDigitsAscending(Pad2(a), Pad2(b));
  }

  /** A date key starts with the year, a dash, the two-digit month and a
      dash. */
  lemma DateKeyPrefix(year: nat, month: nat, day: nat)
    requires month < 12
    ensures var key, p := DateKey(year, month, day), |NatToString(year)|;
            && |key| >= p + 4
            && key[..p] == NatToString(year) && key[p] == '-' && key[p + 3] == '-'
            && key[p + 1..p + 3] == Pad2(month + 1)
  {
    Pad2Digits(month + 1);
    DashedParts(NatToString(year), Pad2(month + 1), Pad2(day));
  }

  /** Where the parts of `${y}-${m}-${t}` sit, for a two-character m. */
  lemma DashedParts(y: string, m: string, t: string)
    requires |m| == 2
    ensures var key, p := y + "-" + m + "-" + t, |y|;
            && |key| == p + 4 + |t|
            && key[..p] == y && key[p] == '-' && key[p + 3] == '-' && key[p + 1..p + 3] == m
  {
    var key, p := y + "-" + m + "-" + t, |y|;
    assert key == y + ("-" + m + "-" + t);
    assert key[p + 1..p + 3] == ("-" + m + "-" + t)[1..3];
  }

  /** A date key ends with two digits that read back as the day, right after
      the prefix. */
  lemma DateKeyDay(year: nat, month: nat, day: nat)
    requires month < 12 && day < 100
    ensures var key, p := DateKey(year, month, day), |NatToString(year)|;
            && |key| == p + 6
            && key[p + 4..] == Pad2(day)
            && AllDigits(key[p + 4..]) && DigitsValue(key[p + 4..]) == day
  {
    Pad2Digits(month + 1);
    Pad2Digits(day);
    var pre := MonthPrefix(year, month);
    assert |pre| == |NatToString(year)| + 4;
    assert (pre + Pad2(day))[|pre|..] == Pad2(day);
  }

  /** The keys of a month are strictly ascending. */
  lemma MonthDaysAscending(year: nat, month: nat)
    requires month < 12
    ensures StrictlyAscending(MonthDays(year, month))
  {
    var r := MonthDays(year, month);
    forall i, j | 0 <= i < j < |r|
      ensures LexLt(r[i], r[j])
    {
      DayKeysAscending(year, month, i + 1, j + 1);
    }
  }

  /** Keys of one month are ordered as their days. */
  lemma DayKeysAscending(year: nat, month: nat, a: nat, b: nat)
    requires month < 12 && a < b < 100
    ensures LexLt(DateKey(year, month, a), DateKey(year, month, b))
  {
    Pad2Ascending(a, b);
    LexLtCommonPrefix(MonthPrefix(year, month), Pad2(a), Pad2(b));
  }

  /** The month has one key per day, numbered 1 to the month's length: key k
      is the year, the two-digit month and the two-digit day k + 1, and the
      keys are strictly ascending, so no date appears twice. */
  lemma MonthDaysSpec(year: nat, month: nat)
    requires month < 12
    ensures var r := MonthDays(year, month);
            && StrictlyAscending(r)
            && (forall k :: 0 <= k < |r| ==> r[k] == DateKey(year, month, k + 1))
            && (forall day :: 1 <= day <= |r| ==> DateKey(year, month, day) in r)
  {
    MonthDaysAscending(year, month);
    var r := MonthDays(year, month);
    forall day | 1 <= day <= |r|
      ensures DateKey(year, month, day) in r
    {
      assert r[day - 1] == DateKey(year, month, day);
    }
  }

  // ---------------------------------------------------------------------------
  // Toggling and marking
  // ---------------------------------------------------------------------------

  /** `current === 'present' ? 'absent' : 'present'`: an unmarked day becomes
      present. */
  function NextMark(att: Attendance, date: string): Mark {
    if date in att && att[date] == Present then Absent else Present
  }

  /** `toggle(empId, date)`: the named employee's entry for the date flips;
      every other employee is returned as is. */
  function Toggle(emps: seq<Employee>, empId: Id, date: string): (r: seq<Employee>)
    ensures |r| == |emps|
  {
    seq(|emps|, k requires 0 <= k < |emps| =>
      if emps[k].id != empId then emps[k]
      else emps[k].(attendance := emps[k].attendance[date := NextMark(emps[k].attendance, date)]))
  }

  /** Only the date's entry of the employees with that id changes, and it
      goes from present to absent and from absent or unmarked to present. */
  lemma ToggleSpec(emps: seq<Employee>, empId: Id, date: string, k: nat)
    requires k < |emps|
    ensures var e, e' := emps[k], Toggle(emps, empId, date)[k];
            && (e.id != empId ==> e' == e)
            && (e.id == empId ==>
                  && e'.id == e.id && e'.name == e.name && e'.role == e.role && e'.avatar == e.avatar
                  && e'.attendance.Keys == e.attendance.Keys + {date}
                  && (forall d :: d in e.attendance && d != date ==> e'.attendance[d] == e.attendance[d])
                  && (e'.attendance[date] == Absent <==> date in e.attendance && e.attendance[date] == Present))
  {
  }

  /** Toggling twice restores a marked day; an unmarked day ends up absent. */
  lemma ToggleTwice(emps: seq<Employee>, empId: Id, date: string, k: nat)
    requires k < |emps| && emps[k].id == empId
    ensures var e, e2 := emps[k], Toggle(Toggle(emps, empId, date), empId, date)[k];
            && (date in e.attendance ==> e2 == e)
            && (date !in e.attendance ==> e2 == e.(attendance := e.attendance[date := Absent]))
  {
    var e := emps[k];
    var e2 := Toggle(Toggle(emps, empId, date), empId, date)[k];
    if date in e.attendance {
      assert e2.attendance == e.attendance;
    }
  }

  /** The "Present" button of a card calls `toggle(emp.id, today)`. */
  function PresentButton(emps: seq<Employee>, empId: Id, today: string): seq<Employee> {
    Toggle(emps, empId, today)
  }

  /** The "Absent" button calls the very same `toggle(emp.id, today)`. */
  function AbsentButton(emps: seq<Employee>, empId: Id, today: string): seq<Employee> {
    Toggle(emps, empId, today)
  }

  /** Pressing "Absent" for someone already absent today marks them present,
      and pressing "Present" for someone present marks them absent. */
  lemma ButtonsFlip(emps: seq<Employee>, empId: Id, today: string, k: nat)
    requires k < |emps| && emps[k].id == empId
    ensures today in emps[k].attendance && emps[k].attendance[today] == Absent ==>
              AbsentButton(emps, empId, today)[k].attendance[today] == Present
    ensures today in emps[k].attendance && emps[k].attendance[today] == Present ==>
              PresentButton(emps, empId, today)[k].attendance[today] == Absent
  {
  }

  /** The buttons as their labels promise: each sets the named mark. */
  function MarkOne(emps: seq<Employee>, empId: Id, today: string, m: Mark): (r: seq<Employee>)
    ensures |r| == |emps|
  {
    seq(|emps|, k requires 0 <= k < |emps| =>
      if emps[k].id != empId then emps[k]
      else emps[k].(attendance := emps[k].attendance[today := m]))
  }

  /** After the corrected button the employee has exactly the button's mark,
      whatever it was before, and pressing it again changes nothing. */
  lemma MarkOneSpec(emps: seq<Employee>, empId: Id, today: string, m: Mark, k: nat)
    requires k < |emps|
    ensures var r := MarkOne(emps, empId, today, m);
            && (emps[k].id == empId ==> r[k].attendance[today] == m)
            && (emps[k].id != empId ==> r[k] == emps[k])
            && MarkOne(r, empId, today, m) == r
  {
    var r := MarkOne(emps, empId, today, m);
    var r2 := MarkOne(r, empId, today, m);
    forall j | 0 <= j < |r|
      ensures r2[j] == r[j]
    {
      if r[j].id == empId {
        assert r[j].attendance[today := m] == r[j].attendance;
      }
    }
  }

  /** `markAll(status)`: today's entry of every employee becomes status. */
  function MarkAll(emps: seq<Employee>, today: string, m: Mark): (r: seq<Employee>)
    ensures |r| == |emps|
  {
    seq(|emps|, k requires 0 <= k < |emps| => emps[k].(attendance := emps[k].attendance[today := m]))
  }

  /** Every employee is marked for today and nothing else changes; marking
      again is a no-op. */
  lemma MarkAllSpec(emps: seq<Employee>, today: string, m: Mark)
    ensures var r := MarkAll(emps, today, m);
            && (forall k :: 0 <= k < |r| ==>
                  && r[k].attendance[today] == m
                  && r[k].id == emps[k].id && r[k].name == emps[k].name
                  && r[k].role == emps[k].role && r[k].avatar == emps[k].avatar
                  && (forall d :: d in emps[k].attendance && d != today ==> r[k].attendance[d] == emps[k].attendance[d]))
            && MarkAll(r, today, m) == r
  {
    var r := MarkAll(emps, today, m);
    var r2 := MarkAll(r, today, m);
    forall j | 0 <= j < |r|
      ensures r2[j] == r[j]
    {
      assert r[j].attendance[today := m] == r[j].attendance;
    }
  }

  // ---------------------------------------------------------------------------
  // Adding an employee
  // ---------------------------------------------------------------------------

  const DefaultRole := "Team Member"

  /** `addEmployee`: a blank name does nothing; otherwise one employee with
      the trimmed name, the trimmed role or the default, the initials of the
      name and no attendance joins the end of the list. */
  function AddEmployee(emps: seq<Employee>, name: string, role: string, id: Id): seq<Employee> {
    if Trim(name) == "" then emps
    else
      var n := Trim(name);
      var rl := if Trim(role) == "" then DefaultRole else Trim(role);
      emps + [Employee(id, n, rl, Initials(n), map[])]
  }

  /** The list is unchanged exactly when the name is white space only;
      otherwise the new last entry has the trimmed name, a non-empty role, no
      attendance, and as avatar at most two upper-cased first letters of the
      name's words. */
  lemma AddEmployeeSpec(emps: seq<Employee>, name: string, role: string, id: Id)
    ensures var r := AddEmployee(emps, name, role, id);
            && (AllSpace(name) <==> r == emps)
            && (!AllSpace(name) ==>
                  var e := r[|emps|];
                  var words := Filter(Split(Trim(name), ' '), NonEmpty);
                  && |r| == |emps| + 1 && r[..|emps|] == emps
                  && e.id == id && e.name == Trim(name) && e.name != ""
                  && e.role == (if AllSpace(role) then DefaultRole else Trim(role)) && e.role != ""
                  && e.attendance == map[]
                  && |e.avatar| == (if |words| < 2 then |words| else 2) && |e.avatar| >= 1
                  && forall i :: 0 <= i < |e.avatar| ==> e.avatar[i] == UpperChar(words[i][0]))
  {
    TrimEmptyIffAllSpace(name);
    TrimEmptyIffAllSpace(role);
    var n := Trim(name);
    InitialsSpec(n);
    if n != "" {
      NonBlankHasWord(n);
    }
  }

  /** A trimmed, non-empty text has a non-empty word. */
  lemma NonBlankHasWord(n: string)
    requires n != "" && !IsSpace(n[0])
    ensures |Filter(Split(n, ' '), NonEmpty)| >= 1
  {
    var ws := Split(n, ' ');
    FirstWordStarts(n);
    assert NonEmpty(ws[0]);
  }

  /** The first piece of a text that does not start with the separator
      starts with the text's first character. */
  lemma FirstWordStarts(n: string)
    requires n != "" && n[0] != ' '
    ensures Split(n, ' ')[0] != "" && Split(n, ' ')[0][0] == n[0]
  {
  }

  // ---------------------------------------------------------------------------
  // Monthly figures
  // ---------------------------------------------------------------------------

  predicate MarkedAs(att: Attendance, d: string, m: Mark) {
    d in att && att[d] == m
  }

  datatype Stats = Stats(present: nat, absent: nat, pct: nat)

  /** `getStats(emp)`: the working days marked present and absent, and the
      present share in whole percent (0 when the month has no working day). */
  function GetStats(att: Attendance, workDays: seq<string>): Stats {
    var present := Count(workDays, d => MarkedAs(att, d, Present));
    var absent := Count(workDays, d => MarkedAs(att, d, Absent));
    Stats(present, absent, if |workDays| == 0 then 0 else RoundDiv(100 * present, |workDays|))
  }

  /** Only working days count, each at most once as present or absent; the
      share lies between 0 and 100, is 0 without working days or without a
      present day, and is 100 when every working day is present. */
  lemma GetStatsSpec(att: Attendance, workDays: seq<string>)
    ensures var st := GetStats(att, workDays);
            && st.present + st.absent <= |workDays|
            && st.pct <= 100
            && (|workDays| == 0 || st.present == 0 ==> st.pct == 0)
            && (|workDays| > 0 && st.present == |workDays| ==> st.pct == 100)
  {
    var st := GetStats(att, workDays);
    var n := |workDays|;
    CountDisjoint(workDays, d => MarkedAs(att, d, Present), d => MarkedAs(att, d, Absent));
    if n > 0 {
      PercentBounds(st.present, n);
    }
  }

  lemma PercentBounds(present: nat, n: nat)
    requires 0 < n && present <= n
    ensures RoundDiv(100 * present, n) <= 100
    ensures present == 0 ==> RoundDiv(100 * present, n) == 0
    ensures present == n ==> RoundDiv(100 * present, n) == 100
  {
    var w := RoundDiv(100 * present, n);
    PercentAtMost(present, n, w);
    if present == 0 {
      assert w * (2 * n) < 1 * (2 * n);
      CancelBelow(w, 1, 2 * n);
    }
    if present == n {
      PercentFull(n, w);
    }
  }

  lemma PercentAtMost(present: nat, n: nat, w: nat)
    requires 0 < n && present <= n && 2 * w * n <= 2 * (100 * present) + n
    ensures w <= 100
  {
    assert 100 * present <= 100 * n;
    assert w * (2 * n) < 101 * (2 * n);
    CancelBelow(w, 101, 2 * n);
  }

  lemma PercentFull(n: nat, w: nat)
    requires 0 < n && 2 * (100 * n) + n < 2 * (w + 1) * n
    ensures w >= 100
  {
    assert 99 * (2 * n) < w * (2 * n);
    CancelBelow(99, w, 2 * n);
  }

  lemma CancelBelow(a: int, b: int, c: int)
    requires c > 0 && a * c < b * c
    ensures a < b
  {
  }

  datatype Rating = Good | Average | Poor

  /** The badge: Good from 80 %, Average from 60 %, Poor below. */
  function RatingOf(pct: nat): Rating {
    if pct >= 80 then Good else if pct >= 60 then Average else Poor
  }

  function RatingRank(r: Rating): nat {
    match r
    case Poor => 0
    case Average => 1
    case Good => 2
  }

  /** A higher share never earns a lower rating, and full attendance over a
      month with working days rates Good. */
  lemma RatingMonotone(a: nat, b: nat, att: Attendance, workDays: seq<string>)
    requires a <= b
    ensures RatingRank(RatingOf(a)) <= RatingRank(RatingOf(b))
    ensures |workDays| > 0 && GetStats(att, workDays).present == |workDays| ==>
              RatingOf(GetStats(att, workDays).pct) == Good
  {
    GetStatsSpec(att, workDays);
  }
}
