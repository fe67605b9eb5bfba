/** The Quran text endpoints of the server: the source selector, the
    positive-integer query parser, and the WHERE clauses of the one-surah and
    the cross-surah ayah queries, with their placeholder numbering. A query
    is modelled by its parameter list and clauses, and `Selects` gives the
    rows (surah, ayah) the database returns for it. */
module QuranRoute {
  import opened Common

  datatype Source = Uthmani | Hafs

  /** `(req.query.source || 'hafs').toLowerCase()`, kept only when known. */
  function GetSource(q: Option<string>): (s: Option<Source>)
    ensures q.None? || |q.value| == 0 ==> s == Some(Hafs)
    ensures q.Some? && |q.value| > 0 ==>
      (s == Some(Uthmani) <==> ToLower(q.value) == "uthmani")
      && (s == Some(Hafs) <==> ToLower(q.value) == "hafs")
      && (s.None? <==> ToLower(q.value) != "uthmani" && ToLower(q.value) != "hafs")
  {
    var raw := if q.None? || |q.value| == 0 then "hafs" else q.value;
    var source := ToLower(raw);
    if q.None? || |q.value| == 0 then Some(Hafs)
    else if source == "uthmani" then Some(Uthmani)
    else if source == "hafs" then Some(Hafs)
    else None
  }

  predicate AllZeros(s: string) {
    forall i :: 0 <= i < |s| ==> s[i] == '0'
  }

  /** `Number(s)` when that is an integer: white space trimmed, the empty
      string is 0, one optional sign, decimal digits and an optional
      fraction made of zeros. */
  function NumberInt(s: string): (r: Option<int>)
    ensures |Trim(s)| == 0 ==> r == Some(0)
  {
    var t := Trim(s);
    if |t| == 0 then Some(0)
    else
      var negative := t[0] == '-';
      var body := if t[0] == '-' || t[0] == '+' then t[1..] else t;
      var k := DigitRun(body);
      var rest := body[k..];
      if k == 0 then None
      else if |rest| == 0 || (rest[0] == '.' && AllZeros(rest[1..])) then
        var magnitude: int := DigitsValue(body[..k]);
        Some(if negative then -magnitude else magnitude)
      else None
  }

  /** The decimal rendering of a number reads back as that number. */
  lemma NumberIntOfNatToString(n: nat)
    ensures NumberInt(NatToString(n)) == Some(n)
  {
    var s := NatToString(n);
    assert !IsSpace(s[0]) && !IsSpace(s[|s| - 1]);
    assert TrimStart(s) == s;
    assert Trim(s) == s;
    DigitRunOfDigits(s, "");
    assert s + "" == s;
    assert s[..|s|] == s;
    DigitsOfNatToString(n);
  }

  /** `parseRange`: an absent value, a non-integer or a value below 1 is null. */
  function ParseRange(v: Option<string>): (r: Option<nat>)
    ensures r.Some? <==> v.Some? && NumberInt(v.value).Some? && NumberInt(v.value).value >= 1
    ensures r.Some? ==> r.value >= 1 && r.value == NumberInt(v.value).value
  {
    if v.None? then None
    else
      match NumberInt(v.value)
      case None => None
      case Some(n) => if n < 1 then None else Some(n)
  }

  /** One range condition; `param` is the 1-based placeholder number. */
  datatype Clause =
    | AyahAtLeast(param: nat)
    | AyahAtMost(param: nat)
    | FromPosition(param: nat)
    | ToPosition(param: nat)

  datatype Query = Query(params: seq<int>, clauses: seq<Clause>)

  /** Every placeholder names a parameter that exists. */
  predicate WellNumbered(q: Query) {
    forall i :: 0 <= i < |q.clauses| ==> 1 <= q.clauses[i].param <= |q.params|
  }

  /** The clause `ayah >= $k` and its siblings on row (surah, ayah); for the
      cross-surah clauses `$1` and `$2` are the surah bounds. */
  predicate ClauseHolds(c: Clause, params: seq<int>, surah: int, ayah: int)
    requires 1 <= c.param <= |params|
  {
    match c
    case AyahAtLeast(k) => ayah >= params[k - 1]
    case AyahAtMost(k) => ayah <= params[k - 1]
    case FromPosition(k) => surah > params[0] || (surah == params[0] && ayah >= params[k - 1])
    case ToPosition(k) =>
      |params| >= 2 && (surah < params[1] || (surah == params[1] && ayah <= params[k - 1]))
  }

  predicate AllHold(q: Query, surah: int, ayah: int)
    requires WellNumbered(q)
  {
    forall i :: 0 <= i < |q.clauses| ==> ClauseHolds(q.clauses[i], q.params, surah, ayah)
  }

  /** `rangeParams.push(x); clauses.push(... $${rangeParams.length})`: the
      new clause's placeholder is the new parameter. */
  function AddClause(q: Query, x: int, c: Clause): (r: Query)
    requires c.param == |q.params| + 1
    ensures r.params == q.params + [x] && r.clauses == q.clauses + [c]
    ensures WellNumbered(q) ==> WellNumbered(r)
  {
    Query(q.params + [x], q.clauses + [c])
  }

  /** The ayah query of one surah: `$1` is the surah, then the optional
      lower and upper ayah bounds. */
  function SurahQuery(surah: nat, from: Option<nat>, to: Option<nat>): (q: Query)
    ensures WellNumbered(q) && |q.params| >= 1 && q.params[0] == surah
  {
    var q0 := Query([surah], []);
    var q1 := if from.Some? then AddClause(q0, from.value, AyahAtLeast(2)) else q0;
    if to.Some? then AddClause(q1, to.value, AyahAtMost(|q1.params| + 1)) else q1
  }

  /** The one-surah query returns exactly the ayahs of that surah between the
      bounds given. */
  lemma SurahQuerySelectsBounds(surah: nat, from: Option<nat>, to: Option<nat>, s: int, a: int)
    ensures var q := SurahQuery(surah, from, to);
      (s == q.params[0] && AllHold(q, s, a)) <==>
        (s == surah && (from.Some? ==> a >= from.value) && (to.Some? ==> a <= to.value))
  {
    var q := SurahQuery(surah, from, to);
    if from.Some? {
      assert q.clauses[0] == AyahAtLeast(2) && q.params[1] == from.value;
    }
    if to.Some? {
      assert q.clauses[|q.clauses| - 1] == AyahAtMost(|q.params|) && q.params[|q.params| - 1] == to.value;
    }
  }

  datatype Reply = InvalidSource | InvalidSurah | InvalidRange | Run(source: Source, query: Query)

  /** `GET /surah/:n`: 400 for a bad source, surah or ayah range (a bound
      given but invalid, or from above to); otherwise the surah's query. */
  function SurahRequest(source: Option<string>, surahNumber: string, from: Option<string>, to: Option<string>): (r: Reply)
    ensures GetSource(source).None? <==> r == InvalidSource
    ensures r.Run? <==> (GetSource(source).Some? && NumberInt(surahNumber).Some? && NumberInt(surahNumber).value >= 1
      && (from.Some? ==> ParseRange(from).Some?) && (to.Some? ==> ParseRange(to).Some?)
      && (ParseRange(from).Some? && ParseRange(to).Some? ==> ParseRange(from).value <= ParseRange(to).value))
    ensures r.Run? ==> r.query == SurahQuery(NumberInt(surahNumber).value, ParseRange(from), ParseRange(to))
  {
    var src := GetSource(source);
    if src.None? then InvalidSource
    else
      var n := NumberInt(surahNumber);
      if n.None? || n.value < 1 then InvalidSurah
      else
        var fromAyah := ParseRange(from);
        var toAyah := ParseRange(to);
        if (from.Some? && fromAyah.None?) || (to.Some? && toAyah.None?)
          || (fromAyah.Some? && toAyah.Some? && fromAyah.value > toAyah.value)
        then InvalidRange
        else Run(src.value, SurahQuery(n.value, fromAyah, toAyah))
  }

  /** The cross-surah query: `$1` and `$2` are the surah bounds, then the
      optional ayah bounds of the first and the last surah. */
  function RangeQuery(fromSurah: nat, toSurah: nat, fromAyah: Option<nat>, toAyah: Option<nat>): (q: Query)
    ensures WellNumbered(q) && |q.params| >= 2 && q.params[0] == fromSurah && q.params[1] == toSurah
  {
    var q0 := Query([fromSurah, toSurah], []);
    var q1 := if fromAyah.Some? then AddClause(q0, fromAyah.value, FromPosition(3)) else q0;
    if toAyah.Some? then AddClause(q1, toAyah.value, ToPosition(|q1.params| + 1)) else q1
  }

  /** Lexicographic order on (surah, ayah). */
  predicate LexLe(s1: int, a1: int, s2: int, a2: int) {
    s1 < s2 || (s1 == s2 && a1 <= a2)
  }

  /** The cross-surah query (`surah BETWEEN $1 AND $2` and its clauses)
      returns exactly the positions between (fromSurah, fromAyah) and
      (toSurah, toAyah) in reading order; a missing ayah bound leaves that
      end open within its surah. */
  lemma RangeQueryIsLexicographic(fs: nat, ts: nat, fa: Option<nat>, ta: Option<nat>, s: int, a: int)
    ensures var q := RangeQuery(fs, ts, fa, ta);
      (q.params[0] <= s <= q.params[1] && AllHold(q, s, a)) <==>
        (fs <= s <= ts
        && (fa.Some? ==> LexLe(fs, fa.value, s, a))
        && (ta.Some? ==> LexLe(s, a, ts, ta.value)))
  {
    var q := RangeQuery(fs, ts, fa, ta);
    if fa.Some? {
      assert q.clauses[0] == FromPosition(3) && q.params[2] == fa.value;
    }
    if ta.Some? {
      assert q.clauses[|q.clauses| - 1] == ToPosition(|q.params|) && q.params[|q.params| - 1] == ta.value;
    }
  }

  /** `GET /range`: both surah bounds are required and ordered; an ayah bound
      given but invalid is refused. */
  function RangeRequest(source: Option<string>, fromSurah: Option<string>, toSurah: Option<string>,
                        fromAyah: Option<string>, toAyah: Option<string>): (r: Reply)
    ensures GetSource(source).None? <==> r == InvalidSource
    ensures r.Run? <==> (GetSource(source).Some? && ParseRange(fromSurah).Some? && ParseRange(toSurah).Some?
      && ParseRange(fromSurah).value <= ParseRange(toSurah).value
      && (fromAyah.Some? ==> ParseRange(fromAyah).Some?) && (toAyah.Some? ==> ParseRange(toAyah).Some?))
    ensures r.Run? ==> r.query == RangeQuery(ParseRange(fromSurah).value, ParseRange(toSurah).value,
                                             ParseRange(fromAyah), ParseRange(toAyah))
  {
    var src := GetSource(source);
    if src.None? then InvalidSource
    else
      var fs := ParseRange(fromSurah);
      var ts := ParseRange(toSurah);
      var fa := ParseRange(fromAyah);
      var ta := ParseRange(toAyah);
      if fs.None? || ts.None? || fs.value > ts.value then InvalidSurah
      else if (fromAyah.Some? && fa.None?) || (toAyah.Some? && ta.None?) then InvalidRange
      else Run(src.value, RangeQuery(fs.value, ts.value, fa, ta))
  }
}
