/** The recitation test: Arabic-Indic numerals, the per-ayah sets of words
    marked wrong, the error total and the grade it yields. */
module QuranTestingModal {
  import opened Common

  /** `toArabicIndic`: ASCII digit d becomes U+0660 + d. */
  function ToArabicIndic(s: string): (r: string)
    ensures |r| == |s|
    ensures forall i :: 0 <= i < |s| ==> (IsDigit(s[i]) ==> r[i] as int == 0x660 + DigitValue(s[i]))
    ensures forall i :: 0 <= i < |s| ==> (!IsDigit(s[i]) ==> r[i] == s[i])
  {
    if s == [] then []
    else [IndicChar(s[0])] + ToArabicIndic(s[1..])
  }

  function IndicChar(c: char): (d: char)
    ensures IsDigit(c) ==> d as int == 0x660 + DigitValue(c)
    ensures !IsDigit(c) ==> d == c
  {
    if IsDigit(c) then (0x660 + DigitValue(c)) as char else c
  }

  predicate IsIndicDigit(c: char) {
    0x660 <= c as int <= 0x669
  }

  /** The reverse mapping, a partner for the numeral display. */
  function FromArabicIndic(s: string): (r: string)
    ensures |r| == |s|
  {
    if s == [] then []
    else [if IsIndicDigit(s[0]) then (s[0] as int - 0x660 + '0' as int) as char else s[0]] + FromArabicIndic(s[1..])
  }

  /** Text holding no Arabic-Indic digits comes back from its display form. */
  lemma {:induction false} ArabicIndicRoundTrip(s: string)
    requires forall i :: 0 <= i < |s| ==> !IsIndicDigit(s[i])
    ensures FromArabicIndic(ToArabicIndic(s)) == s
  {
    if s != [] {
      ArabicIndicRoundTrip(s[1..]);
    }
  }

  /** `getAyahKey`: "<surah>-<ayah>", the surah falling back to the selection, then "0". */
  function AyahKey(surahNumber: int, selectedSurah: string, ayahNumber: int): (k: string)
    ensures surahNumber != 0 ==> k == IntToString(surahNumber) + "-" + IntToString(ayahNumber)
    ensures surahNumber == 0 && selectedSurah != "" ==> k == selectedSurah + "-" + IntToString(ayahNumber)
    ensures surahNumber == 0 && selectedSurah == "" ==> k == "0-" + IntToString(ayahNumber)
  {
    var surahPart := if surahNumber != 0 then IntToString(surahNumber)
                     else if selectedSurah != "" then selectedSurah else "0";
    surahPart + "-" + IntToString(ayahNumber)
  }

  /** Two ayahs of numbered surahs share a key only when they are the same ayah. */
  lemma AyahKeyInjective(s1: nat, a1: nat, s2: nat, a2: nat, selected: string)
    requires s1 > 0 && s2 > 0
    requires AyahKey(s1, selected, a1) == AyahKey(s2, selected, a2)
    ensures s1 == s2 && a1 == a2
  {
    AyahKeySplits(s1, a1, selected);
    AyahKeySplits(s2, a2, selected);
  }

  lemma AyahKeySplits(s: nat, a: nat, selected: string)
    requires s > 0
    ensures var parts := Split(AyahKey(s, selected, a), '-');
      |parts| == 2 && ParseInt(parts[0]) == Some(s) && ParseInt(parts[1]) == Some(a)
  {
    var ds := NatToString(s);
    var da := NatToString(a);
    assert '-' !in ds by { assert forall k :: 0 <= k < |ds| ==> IsDigit(ds[k]); }
    assert '-' !in da by { assert forall k :: 0 <= k < |da| ==> IsDigit(da[k]); }
    assert AyahKey(s, selected, a) == Join([ds, da], '-');
    SplitJoin([ds, da], '-');
    ParseIntOfNatToString(s);
    ParseIntOfNatToString(a);
  }

  // The marked words: a JavaScript object from ayah key to word indices, kept
  // in insertion order as the object keeps its (non-numeric) keys.

  datatype Entry = Entry(key: string, words: seq<int>)

  type ErrorWords = seq<Entry>

  predicate DistinctKeys(m: ErrorWords) {
    forall i, j :: 0 <= i < j < |m| ==> m[i].key != m[j].key
  }

  predicate NoDuplicates(xs: seq<int>) {
    forall i, j :: 0 <= i < j < |xs| ==> xs[i] != xs[j]
  }

  /** `next[ayahKey] || []`. */
  function WordsOf(m: ErrorWords, key: string): (ws: seq<int>)
    ensures (forall i :: 0 <= i < |m| ==> m[i].key != key) ==> ws == []
  {
    if m == [] then []
    else if m[0].key == key then m[0].words
    else WordsOf(m[1..], key)
  }

  /** `next[ayahKey] = value`: replaces the entry in place, or appends a new one. */
  function Put(m: ErrorWords, key: string, ws: seq<int>): (r: ErrorWords)
    ensures WordsOf(r, key) == ws
    ensures forall k :: k != key ==> WordsOf(r, k) == WordsOf(m, k)
  {
    if m == [] then [Entry(key, ws)]
    else if m[0].key == key then [Entry(key, ws)] + m[1..]
    else [m[0]] + Put(m[1..], key, ws)
  }

  /** Writing one ayah adds no second entry for any key: every entry of the
      result is the written one or an entry that was there before. */
  lemma {:induction false} PutKeepsDistinctKeys(m: ErrorWords, key: string, ws: seq<int>)
    requires DistinctKeys(m)
    ensures DistinctKeys(Put(m, key, ws))
    ensures forall e :: e in Put(m, key, ws) ==> e.key == key || e in m
  {
    if m != [] && m[0].key != key {
      var tail := m[1..];
      assert DistinctKeys(tail) by {
        forall i, j | 0 <= i < j < |tail| ensures tail[i].key != tail[j].key {
          assert tail[i] == m[i + 1] && tail[j] == m[j + 1];
        }
      }
      PutKeepsDistinctKeys(tail, key, ws);
      var rest := Put(tail, key, ws);
      assert forall e :: e in tail ==> e.key != m[0].key by {
        forall e | e in tail ensures e.key != m[0].key {
          var j :| 0 <= j < |tail| && tail[j] == e;
          assert m[j + 1] == e;
        }
      }
      var r := [m[0]] + rest;
      assert Put(m, key, ws) == r;
      forall i, j | 0 <= i < j < |r| ensures r[i].key != r[j].key {
        assert r[j] == rest[j - 1] && r[j] in rest;
        if i > 0 {
          assert r[i] == rest[i - 1];
        }
      }
      forall e | e in r ensures e.key == key || e in m {
        if e != m[0] {
          assert e in rest;
        }
      }
    } else if m != [] {
      var r := Put(m, key, ws);
      assert r == [Entry(key, ws)] + m[1..];
      forall i, j | 0 <= i < j < |r| ensures r[i].key != r[j].key {
        assert r[j] == m[j];
        if i > 0 {
          assert r[i] == m[i];
        }
      }
      forall e | e in r ensures e.key == key || e in m {
        if e != r[0] {
          var j :| 0 <= j < |r| && r[j] == e;
          assert r[j] == m[j];
        }
      }
    }
  }

  /** `Array.from(new Set(xs))`: the first occurrence of each index, in order. */
  function Distinct(xs: seq<int>): (r: seq<int>)
    ensures NoDuplicates(r)
    ensures forall x :: x in r <==> x in xs
    decreases |xs|
  {
    if xs == [] then []
    else
      var prev := Distinct(xs[..|xs| - 1]);
      var last := xs[|xs| - 1];
      assert forall x :: x in xs <==> x in xs[..|xs| - 1] || x == last;
      if last in prev then prev else prev + [last]
  }

  function Remove(xs: seq<int>, w: int): (r: seq<int>)
    ensures forall x :: x in r <==> x in xs && x != w
    ensures NoDuplicates(xs) ==> NoDuplicates(r)
    ensures NoDuplicates(xs) && w in xs ==> |r| == |xs| - 1
    ensures w !in xs ==> r == xs
  {
    if xs == [] then []
    else if xs[0] == w then
      var r := Remove(xs[1..], w);
      assert xs[0] !in xs[1..] ==> r == xs[1..];
      r
    else
      var r := Remove(xs[1..], w);
      assert xs == [xs[0]] + xs[1..];
      assert NoDuplicates(xs) ==> xs[0] !in xs[1..] && xs[0] !in r;
      [xs[0]] + r
  }

  /** The set's `delete` when the index is marked, `add` otherwise. */
  function Flip(xs: seq<int>, w: int): (r: seq<int>)
    requires NoDuplicates(xs)
    ensures NoDuplicates(r)
    ensures forall x :: x != w ==> (x in r <==> x in xs)
    ensures w in r <==> w !in xs
    ensures |r| == if w in xs then |xs| - 1 else |xs| + 1
  {
    if w in xs then Remove(xs, w) else xs + [w]
  }

  /** The error map after `toggleWordError(key, w)`. */
  function Toggled(m: ErrorWords, key: string, w: int): (r: ErrorWords)
    ensures forall k :: k != key ==> WordsOf(r, k) == WordsOf(m, k)
    ensures NoDuplicates(WordsOf(r, key))
    ensures w in WordsOf(r, key) <==> w !in WordsOf(m, key)
    ensures forall x :: x != w ==> (x in WordsOf(r, key) <==> x in WordsOf(m, key))
  {
    Put(m, key, Flip(Distinct(WordsOf(m, key)), w))
  }

  /** Toggling the same word twice leaves every ayah with the same marked words. */
  lemma ToggleTwice(m: ErrorWords, key: string, w: int, k: string, x: int)
    ensures x in WordsOf(Toggled(Toggled(m, key, w), key, w), k) <==> x in WordsOf(m, k)
  {
  }

  /** `Object.values(errorWords).reduce((sum, words) => sum + words.length, 0)`. */
  function TotalErrors(m: ErrorWords): nat {
    if m == [] then 0 else |m[0].words| + TotalErrors(m[1..])
  }

  lemma {:induction false} TotalErrorsPut(m: ErrorWords, key: string, ws: seq<int>)
    requires DistinctKeys(m)
    ensures TotalErrors(Put(m, key, ws)) + |WordsOf(m, key)| == TotalErrors(m) + |ws|
  {
    if m != [] && m[0].key != key {
      TotalErrorsPut(m[1..], key, ws);
    } else if m != [] {
      assert forall j :: 0 <= j < |m| - 1 ==> m[1..][j] == m[j + 1];
    }
  }

  /** Marking a word adds one error and unmarking it removes one, when the
      ayah's list holds no repeats (as every list the toggle writes). */
  lemma ToggleChangesTotalByOne(m: ErrorWords, key: string, w: int)
    requires DistinctKeys(m) && NoDuplicates(WordsOf(m, key))
    ensures w !in WordsOf(m, key) ==> TotalErrors(Toggled(m, key, w)) == TotalErrors(m) + 1
    ensures w in WordsOf(m, key) ==> TotalErrors(Toggled(m, key, w)) + 1 == TotalErrors(m)
  {
    var ws := WordsOf(m, key);
    DistinctOfDistinct(ws);
    TotalErrorsPut(m, key, Flip(Distinct(ws), w));
  }

  lemma {:induction false} DistinctOfDistinct(xs: seq<int>)
    requires NoDuplicates(xs)
    ensures Distinct(xs) == xs
    decreases |xs|
  {
    if xs != [] {
      DistinctOfDistinct(xs[..|xs| - 1]);
      assert xs == xs[..|xs| - 1] + [xs[|xs| - 1]];
    }
  }

  /** `Math.max(0, maxGrade - totalErrors * gradePerError)`. */
  function CalculatedGrade(maxGrade: real, totalErrors: nat, gradePerError: real): (g: real)
    ensures g >= 0.0
    ensures gradePerError >= 0.0 && maxGrade >= 0.0 ==> g <= maxGrade
    ensures totalErrors == 0 && maxGrade >= 0.0 ==> g == maxGrade
    ensures g > 0.0 ==> g == maxGrade - totalErrors as real * gradePerError
  {
    var raw := maxGrade - totalErrors as real * gradePerError;
    if raw > 0.0 then raw else 0.0
  }

  /** More errors never raise the grade. */
  lemma CalculatedGradeAntitone(maxGrade: real, e1: nat, e2: nat, gradePerError: real)
    requires e1 <= e2 && gradePerError >= 0.0
    ensures CalculatedGrade(maxGrade, e2, gradePerError) <= CalculatedGrade(maxGrade, e1, gradePerError)
  {
    assert e1 as real * gradePerError <= e2 as real * gradePerError by {
      assert (e2 as real - e1 as real) * gradePerError >= 0.0;
    }
  }

  /** The value typed into the final-grade box: blank, a number or not a number. */
  datatype GradeInput = Blank | Number(x: real) | NotANumber

  datatype FinalGrade = BlankGrade | Grade(value: real)

  /** The manual grade: blank stays blank, a number is clamped into [0, maxGrade], NaN becomes 0. */
  function ManualGrade(raw: GradeInput, maxGrade: real): (g: FinalGrade)
    requires maxGrade >= 0.0
    ensures raw.Blank? <==> g.BlankGrade?
    ensures g.Grade? ==> 0.0 <= g.value <= maxGrade
    ensures raw.Number? && 0.0 <= raw.x <= maxGrade ==> g == Grade(raw.x)
    ensures raw.NotANumber? ==> g == Grade(0.0)
  {
    match raw
    case Blank => BlankGrade
    case NotANumber => Grade(0.0)
    case Number(x) => Grade(if x < 0.0 then 0.0 else if x > maxGrade then maxGrade else x)
  }

  /** `handleSaveTest`'s guards: the message shown, or None when saving goes ahead. */
  function SaveError(ayahCount: nat, selectedCourse: string): (e: Option<string>)
    ensures e.None? <==> ayahCount > 0 && selectedCourse != ""
    ensures ayahCount == 0 ==> e == Some("لا توجد آيات للحفظ")
  {
    if ayahCount == 0 then Some("لا توجد آيات للحفظ")
    else if selectedCourse == "" then Some("يرجى اختيار المقرر")
    else None
  }

  /** The modal's marked words; `viewMode` is fixed when it opens. */
  class TestSheet {
    var errorWords: ErrorWords
    const viewMode: bool

    constructor (initial: ErrorWords, viewMode: bool)
      ensures errorWords == initial && this.viewMode == viewMode
    {
      errorWords := initial;
      this.viewMode := viewMode;
    }

    /** `toggleWordError`: a no-op in view mode. */
    method ToggleWordError(key: string, w: int)
      modifies this
      ensures viewMode ==> errorWords == old(errorWords)
      ensures !viewMode ==> errorWords == Toggled(old(errorWords), key, w)
    {
      if viewMode {
        return;
      }
      var current := Distinct(WordsOf(errorWords, key));
      if w in current {
        current := Remove(current, w);
      } else {
        current := current + [w];
      }
      errorWords := Put(errorWords, key, current);
    }
  }
}
