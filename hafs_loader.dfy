/** The loader of the Hafs Quran text dump: the hand-written parser of one
    SQL `VALUES (...)` tuple, the numbering of the placeholders of a batched
    INSERT, and the line loop that collects 11-value tuples and issues them
    in batches of 200. The file and the database are parameters: the lines
    read, and the statements issued. */
module HafsLoader {
  import opened Common

  /** The variables of the character loop of `parseValuesTuple`. */
  datatype ScanState = ScanState(values: seq<string>, current: string, inString: bool)

  const Start: ScanState := ScanState([], "", false)

  /** The character loop run over `text` from state `st`: a doubled quote
      inside a string is one quote, a quote toggles the string state and is
      dropped, a comma outside a string ends a (trimmed) field, any other
      character is kept. */
  function Scan(text: string, st: ScanState): ScanState
    decreases |text|
  {
    if |text| == 0 then st
    else if text[0] == '\'' && st.inString && |text| > 1 && text[1] == '\'' then
      Scan(text[2..], st.(current := st.current + "'"))
    else if text[0] == '\'' then Scan(text[1..], st.(inString := !st.inString))
    else if text[0] == ',' && !st.inString then Scan(text[1..], ScanState(st.values + [Trim(st.current)], "", false))
    else Scan(text[1..], st.(current := st.current + [text[0]]))
  }

  /** The raw (trimmed) fields: the last one is kept only when the text after
      the final top-level comma is not empty. */
  function RawFields(text: string): seq<string> {
    var st := Scan(text, Start);
    if |st.current| > 0 then st.values + [Trim(st.current)] else st.values
  }

  /** A field after conversion. */
  datatype Value = Null | Number(numeral: string) | Text(text: string)

  /** `-?\d+(\.\d+)?` matches the whole of `s`. */
  predicate IsNumeral(s: string) {
    var u := if |s| > 0 && s[0] == '-' then s[1..] else s;
    var k := DigitRun(u);
    k > 0 && (k == |u| || (u[k] == '.' && k + 1 < |u| && AllDigits(u[k + 1..])))
  }

  /** The conversion of one raw field: empty or NULL in any case is null, a
      numeral is a number (quoted or not), anything else stays text. */
  function Classify(raw: string): (v: Value)
    ensures v.Null? <==> |raw| == 0 || ToLower(raw) == "null"
    ensures v.Number? ==> IsNumeral(raw) && v.numeral == raw
    ensures v.Text? ==> v.text == raw && |raw| > 0 && !IsNumeral(raw)
  {
    if |raw| == 0 then Null
    else if ToLower(raw) == "null" then Null
    else if IsNumeral(raw) then Number(raw)
    else Text(raw)
  }

  /** A numeral is never mistaken for NULL. */
  lemma NumeralIsNotNull(raw: string)
    requires IsNumeral(raw)
    ensures Classify(raw) == Number(raw)
  {
  }

  function TupleValues(text: string): (vs: seq<Value>)
    ensures |vs| == |RawFields(text)|
  {
    var raw := RawFields(text);
    seq(|raw|, j requires 0 <= j < |raw| => Classify(raw[j]))
  }

  /** `parseValuesTuple`: the character loop, the last field, then the
      conversion of every field. */
  method ParseValuesTuple(text: string) returns (result: seq<Value>)
    ensures result == TupleValues(text)
  {
    var values: seq<string> := [];
    var current: string := "";
    var inString := false;
    var i := 0;
    while i < |text|
      invariant 0 <= i <= |text|
      invariant Scan(text[i..], ScanState(values, current, inString)) == Scan(text, Start)
      decreases |text| - i
    {
      var ch := text[i];
      if ch == '\'' && inString && i + 1 < |text| && text[i + 1] == '\'' {
        assert text[i..][2..] == text[i + 2..];
        current := current + "'";
        i := i + 2;
      } else if ch == '\'' {
        assert text[i..][1..] == text[i + 1..];
        inString := !inString;
        i := i + 1;
      } else if ch == ',' && !inString {
        assert text[i..][1..] == text[i + 1..];
        values := values + [Trim(current)];
        current := "";
        i := i + 1;
      } else {
        assert text[i..][1..] == text[i + 1..];
        current := current + [ch];
        i := i + 1;
      }
    }
    if |current| > 0 {
      values := values + [Trim(current)];
    }
    result := seq(|values|, j requires 0 <= j < |values| => Classify(values[j]));
  }

  /** Every piece trimmed. */
  function TrimAll(parts: seq<string>): (r: seq<string>)
    ensures |r| == |parts|
  {
    if |parts| == 0 then [] else [Trim(parts[0])] + TrimAll(parts[1..])
  }

  /** Without quotes the parser is `split(',')` with every field trimmed and
      an empty last piece dropped. */
  lemma NoQuotesSplitsOnCommas(text: string)
    requires '\'' !in text
    ensures var p := Split(text, ',');
      RawFields(text) == TrimAll(p[..|p| - 1]) + (if |p[|p| - 1]| > 0 then [Trim(p[|p| - 1])] else [])
  {
    ScanWithoutQuotes(text, [], "");
    assert "" + text == text;
    assert [] + TrimAll(Split(text, ',')[..|Split(text, ',')| - 1]) == TrimAll(Split(text, ',')[..|Split(text, ',')| - 1]);
  }

  lemma ScanComma(text: string, st: ScanState)
    requires |text| > 0 && text[0] == ',' && !st.inString
    ensures Scan(text, st) == Scan(text[1..], ScanState(st.values + [Trim(st.current)], "", false))
  {
  }

  lemma ScanPlainChar(text: string, st: ScanState)
    requires |text| > 0 && text[0] != ',' && text[0] != '\''
    ensures Scan(text, st) == Scan(text[1..], st.(current := st.current + [text[0]]))
  {
  }

  /** Splitting at a first comma that follows a comma-free prefix. */
  lemma SplitAtFirstComma(cur: string, text: string)
    requires ',' !in cur && |text| > 0 && text[0] == ','
    ensures Split(cur + text, ',') == [cur] + Split(text[1..], ',')
  {
    var rest := text[1..];
    assert cur + text == cur + [','] + rest;
    FirstIndexAfter(cur, ',', rest);
    var s := cur + [','] + rest;
    assert s[..|cur|] == cur && s[|cur| + 1..] == rest;
  }

  lemma SplitMovesChar(cur: string, text: string)
    requires |text| > 0
    ensures Split(cur + [text[0]] + text[1..], ',') == Split(cur + text, ',')
  {
    assert cur + [text[0]] + text[1..] == cur + text;
  }

  lemma ConsInit<T>(x: T, q: seq<T>)
    requires |q| >= 1
    ensures ([x] + q)[..|q|] == [x] + q[..|q| - 1] && ([x] + q)[|q|] == q[|q| - 1]
  {
  }

  lemma AppendAssoc<T>(a: seq<T>, b: seq<T>, c: seq<T>)
    ensures (a + b) + c == a + (b + c)
  {
  }

  lemma TrimAllCons(x: string, q: seq<string>)
    ensures TrimAll([x] + q) == [Trim(x)] + TrimAll(q)
  {
    assert ([x] + q)[1..] == q;
  }

  /** The state the character loop reaches on quote-free text: the trimmed
      pieces before the last comma are fields, the last piece is pending. */
  function SplitState(vs: seq<string>, s: string): ScanState {
    var p := Split(s, ',');
    ScanState(vs + TrimAll(p[..|p| - 1]), p[|p| - 1], false)
  }

  lemma {:induction false} ScanWithoutQuotes(text: string, vs: seq<string>, cur: string)
    requires '\'' !in text && ',' !in cur
    ensures Scan(text, ScanState(vs, cur, false)) == SplitState(vs, cur + text)
    decreases |text|
  {
    if |text| == 0 {
      ScanEnd(text, vs, cur);
    } else if text[0] == ',' {
      ScanWithoutQuotes(text[1..], vs + [Trim(cur)], "");
      ScanCommaStep(text, vs, cur);
    } else {
      ScanWithoutQuotes(text[1..], vs, cur + [text[0]]);
      ScanCharStep(text, vs, cur);
    }
  }

  lemma ScanEnd(text: string, vs: seq<string>, cur: string)
    requires |text| == 0 && ',' !in cur
    ensures Scan(text, ScanState(vs, cur, false)) == SplitState(vs, cur + text)
  {
    assert cur + text == cur;
    assert Split(cur, ',') == [cur] by {
      assert IndexOf(cur, ',').None?;
    }
    assert [cur][..0] == [];
    assert vs + TrimAll([]) == vs;
  }

  lemma ScanCommaStep(text: string, vs: seq<string>, cur: string)
    requires |text| > 0 && text[0] == ',' && ',' !in cur
    requires Scan(text[1..], ScanState(vs + [Trim(cur)], "", false)) == SplitState(vs + [Trim(cur)], "" + text[1..])
    ensures Scan(text, ScanState(vs, cur, false)) == SplitState(vs, cur + text)
  {
    ScanComma(text, ScanState(vs, cur, false));
    assert "" + text[1..] == text[1..];
    SplitAtFirstComma(cur, text);
    var q := Split(text[1..], ',');
    ConsInit(cur, q);
    TrimAllCons(cur, q[..|q| - 1]);
    AppendAssoc(vs, [Trim(cur)], TrimAll(q[..|q| - 1]));
  }

  lemma ScanCharStep(text: string, vs: seq<string>, cur: string)
    requires |text| > 0 && text[0] != ',' && text[0] != '\''
    requires Scan(text[1..], ScanState(vs, cur + [text[0]], false)) == SplitState(vs, cur + [text[0]] + text[1..])
    ensures Scan(text, ScanState(vs, cur, false)) == SplitState(vs, cur + text)
  {
    ScanPlainChar(text, ScanState(vs, cur, false));
    SplitMovesChar(cur, text);
  }

  lemma ScanInString(text: string, st: ScanState)
    requires |text| > 0 && text[0] != '\'' && st.inString
    ensures Scan(text, st) == Scan(text[1..], st.(current := st.current + [text[0]]))
  {
  }

  /** Inside a string every character but the quote is kept, commas included. */
  lemma {:induction false} InStringRun(s: string, rest: string, st: ScanState)
    requires '\'' !in s && st.inString
    ensures Scan(s + rest, st) == Scan(rest, st.(current := st.current + s))
    decreases |s|
  {
    if |s| == 0 {
      assert s + rest == rest && st.current + s == st.current;
    } else {
      InStringRun(s[1..], rest, st.(current := st.current + [s[0]]));
      InStringStep(s, rest, st);
    }
  }

  lemma InStringStep(s: string, rest: string, st: ScanState)
    requires |s| > 0 && s[0] != '\'' && st.inString
    requires Scan(s[1..] + rest, st.(current := st.current + [s[0]]))
      == Scan(rest, st.(current := st.current + [s[0]] + s[1..]))
    ensures Scan(s + rest, st) == Scan(rest, st.(current := st.current + s))
  {
    TailOfAppend(s, rest);
    ScanInString(s + rest, st);
    HeadMoves(st.current, s);
  }

  lemma TailOfAppend<T>(s: seq<T>, rest: seq<T>)
    requires |s| > 0
    ensures (s + rest)[0] == s[0] && (s + rest)[1..] == s[1..] + rest
  {
  }

  lemma HeadMoves<T>(c: seq<T>, s: seq<T>)
    requires |s| > 0
    ensures c + [s[0]] + s[1..] == c + s
  {
  }

  /** A quoted run without quotes inside (commas allowed) is taken whole and
      the delimiting quotes are dropped, provided the closing quote is not
      doubled. */
  lemma QuotedRunKept(s: string, rest: string, st: ScanState)
    requires '\'' !in s && !st.inString && (rest == [] || rest[0] != '\'')
    ensures Scan("'" + s + "'" + rest, st) == Scan(rest, st.(current := st.current + s))
  {
    var tail := "'" + rest;
    QuoteSplit(s, rest);
    var open := st.(inString := true);
    ScanQuoteOpens(s + tail, st);
    InStringRun(s, tail, open);
    var inside := open.(current := st.current + s);
    ScanQuoteCloses(rest, inside);
  }

  lemma QuoteSplit(s: string, rest: string)
    ensures "'" + s + "'" + rest == "'" + (s + ("'" + rest))
  {
  }

  lemma ScanQuoteOpens(text: string, st: ScanState)
    requires !st.inString
    ensures Scan("'" + text, st) == Scan(text, st.(inString := true))
  {
    assert ("'" + text)[1..] == text;
  }

  lemma ScanQuoteCloses(rest: string, st: ScanState)
    requires st.inString && (rest == [] || rest[0] != '\'')
    ensures Scan("'" + rest, st) == Scan(rest, st.(inString := false))
  {
    assert ("'" + rest)[1..] == rest;
  }

  /** Inside a string, a doubled quote stands for one quote. */
  lemma DoubledQuoteIsOneQuote(rest: string, st: ScanState)
    requires st.inString
    ensures Scan("''" + rest, st) == Scan(rest, st.(current := st.current + "'"))
  {
    assert ("''" + rest)[2..] == rest;
  }

  /** Concatenation of a sequence of rows. */
  function Concat<T>(xs: seq<seq<T>>): seq<T>
    decreases |xs|
  {
    if |xs| == 0 then [] else Concat(xs[..|xs| - 1]) + xs[|xs| - 1]
  }

  lemma ConcatAppend<T>(xs: seq<seq<T>>, x: seq<T>)
    ensures Concat(xs + [x]) == Concat(xs) + x
  {
    assert (xs + [x])[..|xs|] == xs;
  }

  /** Rows of eleven values laid end to end: element `k` is column `k % 11`
      of row `k / 11`. */
  lemma {:induction false} ConcatOfElevens<T>(xs: seq<seq<T>>)
    requires forall r :: 0 <= r < |xs| ==> |xs[r]| == 11
    ensures |Concat(xs)| == 11 * |xs|
    ensures forall k :: 0 <= k < |Concat(xs)| ==> Concat(xs)[k] == xs[k / 11][k % 11]
    decreases |xs|
  {
    if |xs| > 0 {
      var init := xs[..|xs| - 1];
      ConcatOfElevens(init);
      forall k | 0 <= k < |Concat(xs)|
        ensures Concat(xs)[k] == xs[k / 11][k % 11]
      {
        if k < 11 * |init| {
          assert Concat(xs)[k] == Concat(init)[k];
          assert k / 11 < |init|;
        } else {
          assert k / 11 == |xs| - 1;
        }
      }
    }
  }

  const ColumnCount: nat := 11

  /** The placeholder numbers of row `r`: `$(r·11 + c + 1)` for column `c`. */
  function RowPlaceholders(r: nat): (ps: seq<nat>)
    ensures |ps| == ColumnCount
  {
    seq(ColumnCount, c requires 0 <= c < ColumnCount => r * ColumnCount + c + 1)
  }

  datatype Statement = Statement(placeholders: seq<seq<nat>>, values: seq<Value>)

  /** `insertBatch`: an empty batch issues nothing; otherwise one INSERT with
      a placeholder tuple per row and every row's values in order. */
  function InsertBatch(rows: seq<seq<Value>>): (st: Option<Statement>)
    ensures st.None? <==> |rows| == 0
    ensures st.Some? ==> |st.value.placeholders| == |rows| && st.value.values == Concat(rows)
  {
    if |rows| == 0 then None
    else Some(Statement(seq(|rows|, r requires 0 <= r < |rows| => RowPlaceholders(r)), Concat(rows)))
  }

  /** For rows of eleven values, the placeholders read in order are exactly
      `$1 … $(11·rows)`, and placeholder `$(k+1)` stands for value `k`, which
      is column `k % 11` of row `k / 11`. */
  lemma PlaceholdersNumberTheValues(rows: seq<seq<Value>>)
    requires |rows| > 0 && forall r :: 0 <= r < |rows| ==> |rows[r]| == 11
    ensures var st := InsertBatch(rows).value;
      |Concat(st.placeholders)| == |st.values| == 11 * |rows|
      && (forall k :: 0 <= k < |st.values| ==> Concat(st.placeholders)[k] == k + 1)
      && (forall k :: 0 <= k < |st.values| ==> st.values[k] == rows[k / 11][k % 11])
  {
    var st := InsertBatch(rows).value;
    ConcatOfElevens(rows);
    ConcatOfElevens(st.placeholders);
    forall k | 0 <= k < |st.values|
      ensures Concat(st.placeholders)[k] == k + 1
    {
      assert Concat(st.placeholders)[k] == RowPlaceholders(k / 11)[k % 11];
    }
  }

  predicate EndsWith(s: string, suffix: string) {
    |suffix| <= |s| && s[|s| - |suffix|..] == suffix
  }

  /** The first position from `i` on skipping white space. */
  function SkipSpaces(s: string, i: nat): (j: nat)
    requires i <= |s|
    ensures i <= j <= |s| && (j < |s| ==> !IsSpace(s[j]))
    decreases |s| - i
  {
    if i < |s| && IsSpace(s[i]) then SkipSpaces(s, i + 1) else i
  }

  /** The leftmost place from `p` on where `VALUES` (any case), white space
      and an opening parenthesis occur: the index of that parenthesis. */
  function ValuesOpen(s: string, p: nat): (q: Option<nat>)
    requires p <= |s|
    ensures q.Some? ==> q.value < |s| && s[q.value] == '('
    decreases |s| - p
  {
    if p + 6 > |s| then None
    else if ToLower(s[p..p + 6]) == "values" && SkipSpaces(s, p + 6) < |s| && s[SkipSpaces(s, p + 6)] == '('
    then Some(SkipSpaces(s, p + 6))
    else ValuesOpen(s, p + 1)
  }

  /** `/VALUES\s*\((.*)\)\s*;$/i` on a buffer ending in `);`: the text
      between the first such opening parenthesis and the final `)`. */
  function MatchTuple(buffer: string): (t: Option<string>)
    requires EndsWith(buffer, ");")
    ensures t.Some? ==> |t.value| <= |buffer| - 2
  {
    match ValuesOpen(buffer, 0)
    case None => None
    case Some(q) =>
      assert buffer[|buffer| - 2] == ')' && buffer[|buffer| - 1] == ';';
      Some(buffer[q + 1..|buffer| - 2])
  }

  /** One line of the dump: the buffer after it and the tuple it completes. */
  function Accept(buffer: string, line: string): (r: (string, Option<seq<Value>>))
    ensures r.1.Some? ==> |r.1.value| == 11 && r.0 == ""
    ensures !Contains(line, "VALUES") ==> r == (buffer, None)
  {
    if !Contains(line, "VALUES") then (buffer, None)
    else
      var b := buffer + Trim(line);
      if !EndsWith(b, ");") then (b, None)
      else match MatchTuple(b)
        case None => ("", None)
        case Some(t) =>
          var vs := TupleValues(t);
          if |vs| != 11 then ("", None) else ("", Some(vs))
  }

  /** The 11-value rows the remaining lines yield, in order. */
  function RowsFrom(lines: seq<string>, buffer: string): (rows: seq<seq<Value>>)
    ensures forall j :: 0 <= j < |rows| ==> |rows[j]| == 11
    decreases |lines|
  {
    if |lines| == 0 then []
    else
      var (b, r) := Accept(buffer, lines[0]);
      (if r.Some? then [r.value] else []) + RowsFrom(lines[1..], b)
  }

  lemma RowsFromStep(lines: seq<string>, i: nat, buffer: string, b: string, r: Option<seq<Value>>)
    requires i < |lines| && (b, r) == Accept(buffer, lines[i])
    ensures RowsFrom(lines[i..], buffer) == (if r.Some? then [r.value] else []) + RowsFrom(lines[i + 1..], b)
  {
    assert lines[i..][1..] == lines[i + 1..];
  }

  /** One line of the loop: the rows issued so far plus the line's tuple, if
      it completes one, plus what the remaining lines yield, is still the
      whole dump's rows. */
  lemma LoadStep(lines: seq<string>, i: nat, buffer: string, b: string, r: Option<seq<Value>>, done: seq<seq<Value>>)
    requires i < |lines| && (b, r) == Accept(buffer, lines[i])
    requires done + RowsFrom(lines[i..], buffer) == RowsFrom(lines, "")
    ensures r.Some? ==> (done + [r.value]) + RowsFrom(lines[i + 1..], b) == RowsFrom(lines, "")
    ensures r.None? ==> done + RowsFrom(lines[i + 1..], b) == RowsFrom(lines, "")
  {
    RowsFromStep(lines, i, buffer, b, r);
    var rest := RowsFrom(lines[i + 1..], b);
    if r.Some? {
      assert done + ([r.value] + rest) == (done + [r.value]) + rest;
    } else {
      assert [] + rest == rest;
    }
  }

  const BatchSize: nat := 200

  /** `batch.push(values)` and, once the batch holds 200 rows, handing it
      to `insertBatch` and emptying it. */
  method Push(batches: seq<seq<seq<Value>>>, batch: seq<seq<Value>>, inserted: nat, row: seq<Value>)
    returns (batches': seq<seq<seq<Value>>>, batch': seq<seq<Value>>, inserted': nat)
    requires |batch| < BatchSize && inserted == |Concat(batches)|
    requires forall j :: 0 <= j < |batches| ==> |batches[j]| == BatchSize
    ensures Concat(batches') + batch' == Concat(batches) + batch + [row]
    ensures |batch'| < BatchSize && inserted' == |Concat(batches')|
    ensures forall j :: 0 <= j < |batches'| ==> |batches'[j]| == BatchSize
  {
    batch' := batch + [row];
    batches' := batches;
    inserted' := inserted;
    if |batch'| >= BatchSize {
      ConcatAppend(batches, batch');
      batches' := batches + [batch'];
      inserted' := inserted + BatchSize;
      batch' := [];
      assert Concat(batches') + batch' == Concat(batches');
    }
  }

  /** `loadHafsSmartV8`'s loop: the batches handed to `insertBatch`, in
      order, and the count it reports. Every row is issued once, in order;
      every batch but the last holds exactly 200 rows and none is empty. */
  method Load(lines: seq<string>) returns (batches: seq<seq<seq<Value>>>, inserted: nat)
    ensures Concat(batches) == RowsFrom(lines, "")
    ensures forall j :: 0 <= j < |batches| ==> 0 < |batches[j]| <= BatchSize
    ensures forall j :: 0 <= j < |batches| - 1 ==> |batches[j]| == BatchSize
    ensures inserted == |RowsFrom(lines, "")|
  {
    batches := [];
    var batch: seq<seq<Value>> := [];
    var buffer := "";
    inserted := 0;
    var i := 0;
    while i < |lines|
      invariant 0 <= i <= |lines|
      invariant Concat(batches) + batch + RowsFrom(lines[i..], buffer) == RowsFrom(lines, "")
      invariant forall j :: 0 <= j < |batches| ==> |batches[j]| == BatchSize
      invariant |batch| < BatchSize
      invariant inserted == |Concat(batches)|
    {
      var (b, r) := Accept(buffer, lines[i]);
      LoadStep(lines, i, buffer, b, r, Concat(batches) + batch);
      buffer := b;
      if r.Some? {
        batches, batch, inserted := Push(batches, batch, inserted, r.value);
      }
      i := i + 1;
    }
    assert RowsFrom(lines[i..], buffer) == [];
    if |batch| > 0 {
      ConcatAppend(batches, batch);
      batches := batches + [batch];
      inserted := inserted + |batch|;
    }
  }
}
