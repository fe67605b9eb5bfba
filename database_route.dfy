/** The admin database browser: every handler first checks the table name
    against the public tables, then builds its query with numbered
    placeholders: the search over the text columns with LIMIT and OFFSET
    after them, the INSERT of the non-empty fields, the UPDATE of every
    field but the primary key with the key last, and the DELETE by key. The
    catalogue (tables, columns, primary key) and the outcome of running a
    query are handed in. */
module DatabaseRoute {
  import opened Common
  import opened SqlParams

  /** A column as `information_schema` describes it. */
  datatype Column = Column(name: string, dataType: string)

  /** `['varchar', 'text', 'char', 'character'].some(type => col.type.includes(type))`. */
  predicate IsTextType(t: string) {
    Contains(t, "varchar") || Contains(t, "text") || Contains(t, "char") || Contains(t, "character")
  }

  /** The names of the text columns, in the catalogue's order. */
  function TextColumns(cols: seq<Column>): (names: seq<string>)
    ensures |names| <= |cols|
    decreases |cols|
  {
    if cols == [] then []
    else
      var last := cols[|cols| - 1];
      TextColumns(cols[..|cols| - 1]) + (if IsTextType(last.dataType) then [last.name] else [])
  }

  /** A name is searched exactly when some column of that name has a text
      type. */
  lemma {:induction false} TextColumnsMembers(cols: seq<Column>, name: string)
    ensures name in TextColumns(cols) <==> exists i :: 0 <= i < |cols| && cols[i].name == name && IsTextType(cols[i].dataType)
    decreases |cols|
  {
    if cols != [] {
      var init := cols[..|cols| - 1];
      TextColumnsMembers(init, name);
      assert forall i :: 0 <= i < |init| ==> init[i] == cols[i];
    }
  }

  /** The search pattern `%<search>%`. */
  function Pattern(search: string): string {
    "%" + search + "%"
  }

  /** One ILIKE condition per text column, each with its own copy of the
      pattern. */
  function SearchFields(names: seq<string>, search: string): seq<Field<string, Value>> {
    seq(|names|, i requires 0 <= i < |names| => Field(names[i], Some(Text(Pattern(search)))))
  }

  /** `offset = (page - 1) * limit`. */
  function Offset(page: int, limit: int): int {
    (page - 1) * limit
  }

  /** `SELECT * FROM t [WHERE c1 ILIKE $1 OR ...] LIMIT $k+1 OFFSET $k+2`. */
  datatype Select = Select(conditions: seq<Slot<string>>, params: seq<Value>, limitIndex: nat, offsetIndex: nat)

  /** GET /table/:t: 404 with no query for a table the catalogue does not
      list; otherwise the search query: with a non-empty search, an ILIKE
      on every text column binding the pattern from `$1` on; LIMIT and
      OFFSET take the two placeholders after them. */
  method BuildSelect(tables: Catalogue, table: string, cols: seq<Column>, search: string, page: int, limit: int)
    returns (reply: Reply, query: Option<Select>)
    ensures table !in tables <==> reply == TableNotFound
    ensures table !in tables ==> query.None?
    ensures table in tables ==> reply == Done && query.Some?
    ensures query.Some? ==>
      var q := query.value;
      (|search| == 0 ==> q.conditions == [])
      && (|search| > 0 ==> |q.conditions| == |TextColumns(cols)|)
      && q.limitIndex == |q.conditions| + 1 && q.offsetIndex == q.limitIndex + 1 && |q.params| == q.offsetIndex
      && (forall i :: 0 <= i < |q.conditions| ==>
            q.conditions[i].column == TextColumns(cols)[i] && q.conditions[i].index == i + 1
            && q.params[i] == Text(Pattern(search)))
      && q.params[q.limitIndex - 1] == Number(limit) && q.params[q.offsetIndex - 1] == Number(Offset(page, limit))
  {
    if table !in tables {
      return TableNotFound, None;
    }
    var slots: seq<Slot<string>> := [];
    var params: seq<Value> := [];
    var next: nat := 1;
    if |search| > 0 {
      var names := TextColumns(cols);
      slots, params, next := NumberFields(SearchFields(names, search), []);
      SearchSlots(names, search, slots, params);
    }
    var all := params + [Number(limit), Number(Offset(page, limit))];
    assert forall i :: 0 <= i < |params| ==> all[i] == params[i];
    reply, query := Done, Some(Select(slots, all, next, next + 1));
  }

  /** Numbering the search fields gives one condition per name, in order,
      each binding its own copy of the pattern. */
  lemma SearchSlots(names: seq<string>, search: string, slots: seq<Slot<string>>, params: seq<Value>)
    requires Binds(slots, params, Provided(SearchFields(names, search)), 1)
    ensures |slots| == |names|
    ensures forall i :: 0 <= i < |slots| ==>
      slots[i].column == names[i] && slots[i].index == i + 1 && params[i] == Text(Pattern(search))
  {
    var fs := SearchFields(names, search);
    ProvidedAll(fs);
    var want := Provided(fs);
    forall i | 0 <= i < |slots|
      ensures slots[i].column == names[i] && slots[i].index == i + 1 && params[i] == Text(Pattern(search))
    {
      assert want[i] == (names[i], Text(Pattern(search)));
      assert params[slots[i].index - 1] == want[i].1;
    }
  }

  /** `Math.ceil(total / limit)`, for a positive limit; None stands for the
      non-finite or negative page counts other limits give. */
  function TotalPages(total: nat, limit: int): (pages: Option<int>)
    ensures limit > 0 <==> pages.Some?
    ensures pages.Some? ==> pages.value >= 0 && pages.value * limit >= total && (pages.value - 1) * limit < total
  {
    if limit > 0 then Some(CeilDiv(total, limit)) else None
  }

  /** Each row of the table is on exactly one page 1..totalPages. */
  lemma RowOnOnePage(total: nat, limit: int, row: nat)
    requires limit > 0 && row < total
    ensures var p := row / limit + 1;
      1 <= p <= TotalPages(total, limit).value && Offset(p, limit) <= row < Offset(p, limit) + limit
  {
    var p := row / limit + 1;
    DivBounds(row, limit);
    var pages := TotalPages(total, limit).value;
    if p > pages {
      MulMonotone(pages, p - 1, limit);
    }
  }

  /** The body fields as `Object.keys` lists them; `None` is `undefined`. */
  type Body = seq<Field<string, Value>>

  /** The INSERT keeps the fields that are neither undefined nor ''. */
  function InsertFields(data: Body): Body {
    seq(|data|, i requires 0 <= i < |data| => if data[i].value == Some(Text("")) then Field(data[i].column, None) else data[i])
  }

  /** The INSERT columns are exactly the body's fields with a value other
      than ''. */
  lemma InsertColumns(data: Body, c: string, v: Value)
    ensures (c, v) in Provided(InsertFields(data)) <==> Field(c, Some(v)) in data && v != Text("")
  {
    ProvidedMembers(InsertFields(data), c, v);
    if Field(c, Some(v)) in data && v != Text("") {
      var i :| 0 <= i < |data| && data[i] == Field(c, Some(v));
      assert InsertFields(data)[i] == data[i];
    }
  }

  /** The UPDATE keeps the defined fields other than the primary key. */
  function UpdateFields(data: Body, pk: string): Body {
    seq(|data|, i requires 0 <= i < |data| => if data[i].column == pk then Field(pk, None) else data[i])
  }

  /** The primary key is never among the SET items. */
  lemma KeyNeverSet(data: Body, pk: string, j: nat)
    requires j < |Provided(UpdateFields(data, pk))|
    ensures Provided(UpdateFields(data, pk))[j].0 != pk
  {
    ProvidedColumns(UpdateFields(data, pk), j);
  }

  /** The catalogue: the public tables with their primary key column, if
      any. */
  type Catalogue = map<string, Option<string>>

  datatype Reply = TableNotFound | NoPrimaryKey | NoData | RecordNotFound | Referenced | Failed | Done

  /** POST /table/:t/record: 404 for an unknown table, 400 with no column
      to insert; otherwise `INSERT (...) VALUES ($1, ..., $n)`. */
  method Insert(tables: Catalogue, table: string, data: Body) returns (reply: Reply, columns: seq<Slot<string>>, params: seq<Value>)
    ensures table !in tables ==> reply == TableNotFound
    ensures table in tables ==> (reply == NoData <==> Provided(InsertFields(data)) == [])
    ensures reply == Done <==> table in tables && Provided(InsertFields(data)) != []
    ensures reply == Done ==> Binds(columns, params, Provided(InsertFields(data)), 1) && |params| == |columns|
  {
    if table !in tables {
      return TableNotFound, [], [];
    }
    var fields := InsertFields(data);
    var next;
    columns, params, next := NumberFields(fields, []);
    assert |columns| == |Provided(fields)|;
    if columns == [] {
      return NoData, [], [];
    }
    reply := Done;
  }

  /** PUT /table/:t/record/:id: 404 for an unknown table, 400 without a
      primary key or with nothing to set; otherwise `SET c1 = $1, ...
      WHERE pk = $n+1`, and 404 when no row had that key (`found`). */
  method Update(tables: Catalogue, table: string, id: string, data: Body, found: bool)
    returns (reply: Reply, query: Option<SqlParams.Update<string, Value>>)
    ensures table !in tables ==> reply == TableNotFound
    ensures table in tables && tables[table].None? ==> reply == NoPrimaryKey
    ensures table in tables && tables[table].Some? ==>
      (reply == NoData <==> Provided(UpdateFields(data, tables[table].value)) == [])
    ensures query.Some? <==> reply == Done || reply == RecordNotFound
    ensures query.Some? ==> table in tables && tables[table].Some?
    ensures query.Some? && table in tables && tables[table].Some? ==>
      UpdatesBy(query.value, Provided(UpdateFields(data, tables[table].value)), Text(id))
    ensures reply == Done <==> query.Some? && found
  {
    if table !in tables {
      return TableNotFound, None;
    }
    if tables[table].None? {
      return NoPrimaryKey, None;
    }
    query := BuildUpdate(UpdateFields(data, tables[table].value), Text(id));
    if query.None? {
      return NoData, None;
    }
    reply := if found then Done else RecordNotFound;
  }

  /** How the DELETE ran. */
  datatype DeleteOutcome = RowDeleted | NoSuchRow | ForeignKeyViolation | OtherError

  /** DELETE /table/:t/record/:id: 404 for an unknown table, 400 without a
      primary key; a foreign-key violation (23503) is 400, any other error
      500. */
  function Delete(tables: Catalogue, table: string, outcome: DeleteOutcome): (reply: Reply)
    ensures reply == Done <==> table in tables && tables[table].Some? && outcome == RowDeleted
    ensures reply == Referenced <==> table in tables && tables[table].Some? && outcome == ForeignKeyViolation
    ensures table !in tables ==> reply == TableNotFound
  {
    if table !in tables then TableNotFound
    else if tables[table].None? then NoPrimaryKey
    else match outcome
      case RowDeleted => Done
      case NoSuchRow => RecordNotFound
      case ForeignKeyViolation => Referenced
      case OtherError => Failed
  }
}
