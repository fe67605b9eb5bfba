/** The student profile modal: stepping to the next ayah to memorise, merging
    and ordering homework, the grade reference strings and the grade-per-error
    note of a recitation test, and the attendance rate. */
module StudentProfileModal {
  import opened Common
  import opened SurahTable
  import Lists

  datatype Ref = Ref(surahId: int, ayah: int)

  /** `getNextMemorizationRef`: the next ayah, the first ayah of the next
      position once the surah is finished, or the last ayah at the end. */
  function NextMemorizationRef(t: seq<Surah>, surahId: int, ayah: int): (r: Option<Ref>)
    requires WellFormed(t)
    ensures Find(t, surahId).None? ==> r.None?
    ensures Find(t, surahId).Some? && ayah < Find(t, surahId).value.ayahCount ==> r == Some(Ref(surahId, ayah + 1))
    ensures Find(t, surahId).Some? && ayah >= Find(t, surahId).value.ayahCount && Position(t, surahId) < |t| ==>
      r == Some(Ref(t[Position(t, surahId)].id, 1))
    ensures Find(t, surahId).Some? && ayah >= Find(t, surahId).value.ayahCount && Position(t, surahId) == |t| ==>
      r == Some(Ref(surahId, Find(t, surahId).value.ayahCount))
  {
    match Find(t, surahId)
    case None => None
    case Some(surah) =>
      if ayah < surah.ayahCount then Some(Ref(surah.id, ayah + 1))
      else
        var nextSurahId := SurahIdAt(t, Position(t, surahId) + 1);
        if nextSurahId == 0 then Some(Ref(surah.id, surah.ayahCount))
        else Some(Ref(nextSurahId, 1))
  }

  /** From any ayah of a surah in the table the next reference names a surah
      of the table and one of its ayahs. */
  lemma NextRefInTable(t: seq<Surah>, surahId: int, ayah: int)
    requires WellFormed(t) && Find(t, surahId).Some? && ayah >= 0
    ensures var r := NextMemorizationRef(t, surahId, ayah);
      r.Some? && Find(t, r.value.surahId).Some? && 1 <= r.value.ayah <= Find(t, r.value.surahId).value.ayahCount
  {
    var p := Position(t, surahId);
    var r := NextMemorizationRef(t, surahId, ayah);
    if ayah >= Find(t, surahId).value.ayahCount && p < |t| {
      PositionRoundTrip(t, 0, p + 1);
      assert Find(t, t[p].id).Some?;
      var i := IndexOfId(t, t[p].id).value;
      assert i == p;
    }
  }

  // Homework: the student's and the class's lists merged, newest first.

  datatype Homework = Homework(id: int, assignedDate: int, status: string)

  function HomeworkId(h: Homework): int {
    h.id
  }

  /** `filter((hw, index, self) => index === self.findIndex(t => t.id === hw.id))`
      over the concatenated lists. */
  function MergedHomework(studentHomework: seq<Homework>, classHomework: seq<Homework>): (r: seq<Homework>)
    ensures Lists.DistinctKeys(r, HomeworkId)
    ensures Lists.KeySet(r, HomeworkId) == Lists.KeySet(studentHomework + classHomework, HomeworkId)
    ensures forall i :: 0 <= i < |r| ==> Lists.FirstOfItsKey(studentHomework + classHomework, HomeworkId, r[i])
  {
    Lists.FirstPerKey(studentHomework + classHomework, HomeworkId)
  }

  predicate NewestFirst(hs: seq<Homework>) {
    forall i, j :: 0 <= i < j < |hs| ==> hs[i].assignedDate >= hs[j].assignedDate
  }

  /** Puts `h` after every entry at least as recent, as a stable sort does. */
  function InsertByDate(sorted: seq<Homework>, h: Homework): (r: seq<Homework>)
    ensures multiset(r) == multiset(sorted) + multiset{h}
  {
    if sorted == [] then [h]
    else if sorted[0].assignedDate < h.assignedDate then [h] + sorted
    else
      assert sorted == [sorted[0]] + sorted[1..];
      [sorted[0]] + InsertByDate(sorted[1..], h)
  }

  lemma {:induction false} InsertByDateNewestFirst(sorted: seq<Homework>, h: Homework)
    requires NewestFirst(sorted)
    ensures NewestFirst(InsertByDate(sorted, h))
  {
    if sorted != [] && sorted[0].assignedDate >= h.assignedDate {
      var rest := InsertByDate(sorted[1..], h);
      InsertByDateNewestFirst(sorted[1..], h);
      forall k | 0 <= k < |rest|
        ensures rest[k].assignedDate <= sorted[0].assignedDate
      {
        assert rest[k] in multiset(rest);
        if rest[k] != h {
          assert rest[k] in multiset(sorted[1..]);
        }
      }
    }
  }

  /** `sort((a, b) => b.assigned_date - a.assigned_date)`. */
  function SortNewestFirst(hs: seq<Homework>): (r: seq<Homework>)
    ensures multiset(r) == multiset(hs)
  {
    if hs == [] then []
    else
      assert hs == hs[..|hs| - 1] + [hs[|hs| - 1]];
      InsertByDate(SortNewestFirst(hs[..|hs| - 1]), hs[|hs| - 1])
  }

  lemma {:induction false} SortNewestFirstSorted(hs: seq<Homework>)
    ensures NewestFirst(SortNewestFirst(hs))
  {
    if hs != [] {
      SortNewestFirstSorted(hs[..|hs| - 1]);
      InsertByDateNewestFirst(SortNewestFirst(hs[..|hs| - 1]), hs[|hs| - 1]);
    }
  }

  /** `find(hw => hw.status !== 'completed')`. */
  function FirstPending(hs: seq<Homework>): (r: Option<Homework>)
    ensures r.Some? ==> r.value in hs && r.value.status != "completed"
    ensures r.None? <==> forall i :: 0 <= i < |hs| ==> hs[i].status == "completed"
  {
    if hs == [] then None
    else if hs[0].status != "completed" then Some(hs[0])
    else
      var r := FirstPending(hs[1..]);
      assert forall i :: 1 <= i < |hs| ==> hs[i] == hs[1..][i - 1];
      r
  }

  lemma FirstPendingIsNewest(hs: seq<Homework>, i: int)
    requires NewestFirst(hs) && 0 <= i < |hs| && hs[i].status != "completed"
    ensures FirstPending(hs).Some? && FirstPending(hs).value.assignedDate >= hs[i].assignedDate
  {
    if hs[0].status == "completed" {
      FirstPendingIsNewest(hs[1..], i - 1);
    }
  }

  /** The latest pending homework is the newest homework that is not
      completed: none exists exactly when every homework is completed. */
  lemma LatestPending(hs: seq<Homework>, h: Homework)
    requires h in hs && h.status != "completed"
    ensures FirstPending(SortNewestFirst(hs)).Some?
    ensures FirstPending(SortNewestFirst(hs)).value in multiset(hs)
    ensures FirstPending(SortNewestFirst(hs)).value.assignedDate >= h.assignedDate
  {
    var s := SortNewestFirst(hs);
    SortNewestFirstSorted(hs);
    assert h in multiset(s);
    var i :| 0 <= i < |s| && s[i] == h;
    FirstPendingIsNewest(s, i);
  }

  // Grade references "<surahId>:<verse>", written by the grade form and read back when editing.

  /** The table's name-to-id lookup. */
  function IdOfName(t: seq<Surah>, name: string): (r: Option<int>)
    ensures r.Some? ==> exists i :: 0 <= i < |t| && t[i].name == name && t[i].id == r.value
    ensures r.None? ==> forall i :: 0 <= i < |t| ==> t[i].name != name
  {
    if t == [] then None
    else if t[0].name == name then Some(t[0].id)
    else
      var r := IdOfName(t[1..], name);
      assert forall i :: 1 <= i < |t| ==> t[i] == t[1..][i - 1];
      r
  }

  /** `${id}`, where a failed lookup prints as "null". */
  function IdText(id: Option<int>): string {
    match id
    case Some(n) => IntToString(n)
    case None => "null"
  }

  /** The reference the grade form stores: empty unless both the surah and the verse are set. */
  function GradeRef(t: seq<Surah>, surahName: string, verse: string): string {
    if surahName != "" && verse != "" then IdText(IdOfName(t, surahName)) + ":" + verse else ""
  }

  /** Reading a stored reference back into (surah name, verse) for editing. */
  function ParseGradeRef(t: seq<Surah>, reference: string): (string, string) {
    if reference == "" then ("", "")
    else
      var parts := Split(reference, ':');
      var name := match ParseInt(parts[0])
        case Some(id) => (match Find(t, id) case Some(s) => s.name case None => "")
        case None => "";
      (name, if |parts| > 1 then parts[1] else "")
  }

  /** A surah chosen from the table and a verse without ':' come back as written. */
  lemma GradeRefRoundTrip(t: seq<Surah>, i: int, verse: string)
    requires WellFormed(t) && 0 <= i < |t| && t[i].name != "" && verse != "" && ':' !in verse
    ensures ParseGradeRef(t, GradeRef(t, t[i].name, verse)) == (t[i].name, verse)
  {
    var id := t[i].id;
    var r := IdOfName(t, t[i].name);
    assert r == Some(id);
    var digits := NatToString(id);
    assert ':' !in digits by {
      assert forall k :: 0 <= k < |digits| ==> IsDigit(digits[k]);
    }
    assert IdText(r) == digits;
    var reference := GradeRef(t, t[i].name, verse);
    assert reference == Join([digits, verse], ':');
    SplitJoin([digits, verse], ':');
    ParseIntOfNatToString(id);
    assert IndexOfId(t, id) == Some(i);
    assert Find(t, id) == Some(t[i]);
  }

  // The grade-per-error note of a recitation test.

  const CountLabel: string := "عدد الأخطاء: "
  const DeductionLabel: string := "الخصم لكل خطأ:"

  /** A non-negative number as a template string prints it: the whole
      part and the digits after the point (none for a whole number). */
  datatype Decimal = Decimal(whole: nat, fraction: string)

  /** JavaScript prints a number's fraction without trailing zeros. */
  predicate Printed(d: Decimal) {
    AllDigits(d.fraction) && (d.fraction == [] || d.fraction[|d.fraction| - 1] != '0')
  }

  function DecimalText(d: Decimal): string {
    NatToString(d.whole) + (if d.fraction == [] then "" else "." + d.fraction)
  }

  /** `prefix`, the marker, a space and the number `d`. */
  function Labelled(prefix: string, marker: string, d: Decimal): string {
    prefix + marker + (" " + DecimalText(d))
  }

  lemma ConcatSlices(prefix: string, marker: string, tail: string)
    ensures (prefix + marker + tail)[|prefix|..|prefix| + |marker|] == marker
    ensures (prefix + marker + tail)[|prefix| + |marker|..] == tail
  {
  }

  /** What precedes the deduction line: the teacher's notes, if any, and the error count. */
  function NotesHead(userNotes: string, totalErrors: nat): string {
    var count := CountLabel + NatToString(totalErrors) + "\n";
    if userNotes != "" then userNotes + "\n\n" + count else count
  }

  /** The notes the test result is saved with. */
  function TestNotes(userNotes: string, totalErrors: nat, gradePerError: Decimal): string {
    Labelled(NotesHead(userNotes, totalErrors), DeductionLabel, gradePerError)
  }

  /** A fraction's digits without its trailing zeros, which do not change
      the number `parseFloat` reads. */
  function DropTrailingZeros(s: string): (r: string)
    requires AllDigits(s)
    ensures AllDigits(r) && (r == [] || r[|r| - 1] != '0')
    ensures |r| <= |s| && r == s[..|r|] && forall i :: |r| <= i < |s| ==> s[i] == '0'
  {
    if s == [] || s[|s| - 1] != '0' then s
    else
      var r := DropTrailingZeros(s[..|s| - 1]);
      assert s[..|s| - 1][..|r|] == s[..|r|];
      r
  }

  /** `parseFloat` of the match of `\d+(?:\.\d+)?` at the start of `s`:
      the digit run, then the point and its digit run when a digit
      follows the point. */
  function ReadDecimal(s: string): (d: Decimal)
    requires DigitRun(s) > 0
    ensures Printed(d)
    ensures d.whole == DigitsValue(s[..DigitRun(s)])
    ensures d.fraction != [] ==> (DigitRun(s) < |s| && s[DigitRun(s)] == '.')
  {
    var n := DigitRun(s);
    var rest := s[n..];
    var fraction := if |rest| > 0 && rest[0] == '.' && DigitRun(rest[1..]) > 0 then rest[1..][..DigitRun(rest[1..])] else "";
    Decimal(DigitsValue(s[..n]), DropTrailingZeros(fraction))
  }

  /** The leftmost match at or after `i` of `marker`, white space and a number. */
  function ValueAfter(notes: string, marker: string, i: nat): (r: Option<Decimal>)
    ensures r.Some? ==> Printed(r.value)
    decreases |notes| - i
  {
    if i + |marker| > |notes| then None
    else if OccursAt(notes, marker, i) && DigitRun(TrimStart(notes[i + |marker|..])) > 0 then
      Some(ReadDecimal(TrimStart(notes[i + |marker|..])))
    else ValueAfter(notes, marker, i + 1)
  }

  /** The grade per error the test view reads from the notes, 1 by default. */
  function ViewedGradePerError(notes: string): (g: Decimal)
    ensures Printed(g)
    ensures notes == "" ==> g == Decimal(1, "")
  {
    if notes == "" then Decimal(1, "")
    else match ValueAfter(notes, DeductionLabel, 0)
      case Some(g) => g
      case None => Decimal(1, "")
  }

  predicate FirstOccursAt(notes: string, marker: string, p: nat) {
    OccursAt(notes, marker, p) && forall j :: 0 <= j < p ==> !OccursAt(notes, marker, j)
  }

  lemma {:induction false} ValueAfterSkips(notes: string, marker: string, i: nat, p: nat)
    requires i <= p && FirstOccursAt(notes, marker, p)
    ensures ValueAfter(notes, marker, i) == ValueAfter(notes, marker, p)
    decreases p - i
  {
    if i < p {
      assert !OccursAt(notes, marker, i) && i + |marker| <= |notes|;
      assert ValueAfter(notes, marker, i) == ValueAfter(notes, marker, i + 1);
      ValueAfterSkips(notes, marker, i + 1, p);
    }
  }

  /** A space before a written number is trimmed away, and nothing more. */
  lemma TrimSpaceBeforeNumber(d: Decimal)
    ensures TrimStart(" " + DecimalText(d)) == DecimalText(d)
  {
    var text := DecimalText(d);
    var spaced := " " + text;
    assert spaced[0] == ' ' && spaced[1..] == text;
    assert TrimStart(spaced) == TrimStart(text);
    assert text[0] == NatToString(d.whole)[0];
    DigitIsNoSpace(text[0]);
    assert TrimStart(text) == text;
  }

  lemma DigitIsNoSpace(c: char)
    requires IsDigit(c)
    ensures !IsSpace(c)
  {
  }

  /** A printed fraction reads back whole. */
  lemma FractionReadsBack(f: string)
    requires AllDigits(f) && f != [] && f[|f| - 1] != '0'
    ensures DigitRun(f) == |f| && DropTrailingZeros(f[..DigitRun(f)]) == f
  {
    DigitRunOfDigits(f, "");
    assert f + "" == f;
    assert f[..|f|] == f;
  }

  /** A printed number reads back as itself: `parseFloat` inverts the
      template string. */
  lemma ReadDecimalOfText(d: Decimal)
    requires Printed(d)
    ensures DigitRun(DecimalText(d)) > 0 && ReadDecimal(DecimalText(d)) == d
  {
    var digits := NatToString(d.whole);
    var tail := if d.fraction == [] then "" else "." + d.fraction;
    var text := DecimalText(d);
    assert text == digits + tail;
    DigitRunOfDigits(digits, tail);
    assert text[..|digits|] == digits && text[|digits|..] == tail;
    DigitsOfNatToString(d.whole);
    if d.fraction != [] {
      assert tail[1..] == d.fraction;
      FractionReadsBack(d.fraction);
    }
  }

  lemma ValueAfterAt(notes: string, marker: string, p: nat, d: Decimal)
    requires Printed(d)
    requires OccursAt(notes, marker, p) && notes[p + |marker|..] == " " + DecimalText(d)
    ensures ValueAfter(notes, marker, p) == Some(d)
  {
    TrimSpaceBeforeNumber(d);
    ReadDecimalOfText(d);
    assert TrimStart(notes[p + |marker|..]) == DecimalText(d);
  }

  /** A number written after the first occurrence of the marker and a space is read back. */
  lemma ValueAfterWritten(prefix: string, marker: string, d: Decimal)
    requires Printed(d)
    requires forall j :: 0 <= j < |prefix| ==> !OccursAt(Labelled(prefix, marker, d), marker, j)
    ensures ValueAfter(Labelled(prefix, marker, d), marker, 0) == Some(d)
  {
    var notes := Labelled(prefix, marker, d);
    ConcatSlices(prefix, marker, " " + DecimalText(d));
    ValueAfterSkips(notes, marker, 0, |prefix|);
    ValueAfterAt(notes, marker, |prefix|, d);
  }

  /** The written deduction, whole or fractional, is read back, provided
      the label does not occur earlier in the notes (in the teacher's own
      text, say). */
  lemma NotesRoundTrip(userNotes: string, totalErrors: nat, gradePerError: Decimal)
    requires Printed(gradePerError)
    requires forall j :: 0 <= j < |NotesHead(userNotes, totalErrors)| ==>
      !OccursAt(TestNotes(userNotes, totalErrors, gradePerError), DeductionLabel, j)
    ensures ViewedGradePerError(TestNotes(userNotes, totalErrors, gradePerError)) == gradePerError
  {
    var head := NotesHead(userNotes, totalErrors);
    var notes := TestNotes(userNotes, totalErrors, gradePerError);
    assert notes == Labelled(head, DeductionLabel, gradePerError);
    ValueAfterWritten(head, DeductionLabel, gradePerError);
  }

  /** `present / total * 100`, or 0 without records. */
  function AttendanceRate(presentDays: nat, totalDays: nat): (r: real)
    requires presentDays <= totalDays
    ensures 0.0 <= r <= 100.0
    ensures totalDays > 0 && presentDays == totalDays ==> r == 100.0
    ensures presentDays == 0 ==> r == 0.0
  {
    if totalDays > 0 then (presentDays as real / totalDays as real) * 100.0 else 0.0
  }
}
