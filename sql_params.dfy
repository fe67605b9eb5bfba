/** The dynamically built parameterised queries of the route handlers: a
    clause is added for each field the request provides, its placeholder is
    `$<counter>` and its value is pushed onto the parameter list, and the
    counter then moves on. A query is modelled by its clauses (the column and
    the placeholder number each one names) and its parameter list. */
module SqlParams {
  import opened Common

  /** One optional request field and the column it sets or tests; `None`
      is a field the request leaves out. */
  datatype Field<C, T> = Field(column: C, value: Option<T>)

  /** The fields the request provides, in their order, with their values. */
  function Provided<C(==), T(==)>(fs: seq<Field<C, T>>): (r: seq<(C, T)>)
    ensures |r| <= |fs|
    ensures r == [] <==> forall i :: 0 <= i < |fs| ==> fs[i].value.None?
    decreases |fs|
  {
    if fs == [] then []
    else
      var last := fs[|fs| - 1];
      Provided(fs[..|fs| - 1]) + (if last.value.Some? then [(last.column, last.value.value)] else [])
  }

  /** A column with a value is in the provided list exactly when the
      request gives that field that value. */
  lemma {:induction false} ProvidedMembers<C, T>(fs: seq<Field<C, T>>, column: C, v: T)
    ensures (column, v) in Provided(fs) <==> Field(column, Some(v)) in fs
    decreases |fs|
  {
    if fs != [] {
      var init := fs[..|fs| - 1];
      ProvidedMembers(init, column, v);
      assert fs == init + [fs[|fs| - 1]];
    }
  }

  /** The values of a list of (column, value) pairs. */
  function Values<C(==), T(==)>(ps: seq<(C, T)>): (vs: seq<T>)
    ensures |vs| == |ps| && forall i :: 0 <= i < |ps| ==> vs[i] == ps[i].1
  {
    seq(|ps|, i requires 0 <= i < |ps| => ps[i].1)
  }

  /** A clause `<column> <op> $<index>`. */
  datatype Slot<C> = Slot(column: C, index: nat)

  /** The slots name the columns of `want` in order, numbered consecutively
      from `first`, and the parameter each slot's placeholder selects holds
      the value of that slot's column. */
  predicate Binds<C(==), T(==)>(slots: seq<Slot<C>>, params: seq<T>, want: seq<(C, T)>, first: nat) {
    |slots| == |want|
    && forall i :: 0 <= i < |slots| ==>
      slots[i].column == want[i].0 && slots[i].index == first + i
      && 1 <= slots[i].index <= |params| && params[slots[i].index - 1] == want[i].1
  }

  /** Appending parameters after the bound ones (a WHERE id, a LIMIT) keeps
      every slot bound to its value. */
  lemma BindsExtend<C, T>(slots: seq<Slot<C>>, params: seq<T>, want: seq<(C, T)>, first: nat, more: seq<T>)
    requires Binds(slots, params, want, first)
    ensures Binds(slots, params + more, want, first)
  {
    forall i | 0 <= i < |slots|
      ensures (params + more)[slots[i].index - 1] == want[i].1
    {
    }
  }

  /** One more provided field gets the next placeholder. */
  lemma BindsSnoc<C, T>(slots: seq<Slot<C>>, params: seq<T>, want: seq<(C, T)>, first: nat, column: C, v: T)
    requires Binds(slots, params, want, first) && first + |want| == |params| + 1
    ensures Binds(slots + [Slot(column, |params| + 1)], params + [v], want + [(column, v)], first)
  {
    BindsExtend(slots, params, want, first, [v]);
  }

  lemma ProvidedSnoc<C, T>(fs: seq<Field<C, T>>, i: nat)
    requires i < |fs|
    ensures Provided(fs[..i + 1]) == Provided(fs[..i]) + (if fs[i].value.Some? then [(fs[i].column, fs[i].value.value)] else [])
  {
    assert fs[..i + 1][..i] == fs[..i];
  }

  /** One iteration of the numbering: a provided field appends its slot and
      its value, a missing one leaves both lists as they are. */
  lemma NumberStep<C, T>(fs: seq<Field<C, T>>, i: nat, slots: seq<Slot<C>>, params: seq<T>, params0: seq<T>)
    requires i < |fs|
    requires params == params0 + Values(Provided(fs[..i]))
    requires Binds(slots, params, Provided(fs[..i]), |params0| + 1)
    ensures fs[i].value.None? ==>
      params == params0 + Values(Provided(fs[..i + 1]))
      && Binds(slots, params, Provided(fs[..i + 1]), |params0| + 1)
    ensures fs[i].value.Some? ==>
      (params + [fs[i].value.value] == params0 + Values(Provided(fs[..i + 1]))
       && Binds(slots + [Slot(fs[i].column, |params| + 1)], params + [fs[i].value.value],
                Provided(fs[..i + 1]), |params0| + 1))
  {
    ProvidedSnoc(fs, i);
    var f := fs[i];
    if f.value.Some? {
      var want := Provided(fs[..i]);
      BindsSnoc(slots, params, want, |params0| + 1, f.column, f.value.value);
      assert Values(want + [(f.column, f.value.value)]) == Values(want) + [f.value.value];
    }
  }

  /** The `if (x !== undefined) { items.push(`col = $${n++}`); values.push(x) }`
      chains: a slot for each provided field, numbered on from the parameters
      already in the list. `next` is the counter afterwards. */
  method NumberFields<C(==), T(==)>(fs: seq<Field<C, T>>, params0: seq<T>) returns (slots: seq<Slot<C>>, params: seq<T>, next: nat)
    ensures params == params0 + Values(Provided(fs))
    ensures Binds(slots, params, Provided(fs), |params0| + 1)
    ensures next == |params| + 1
  {
    slots := [];
    params := params0;
    next := |params0| + 1;
    var i := 0;
    while i < |fs|
      invariant 0 <= i <= |fs|
      invariant params == params0 + Values(Provided(fs[..i]))
      invariant Binds(slots, params, Provided(fs[..i]), |params0| + 1)
      invariant next == |params| + 1
    {
      NumberStep(fs, i, slots, params, params0);
      var f := fs[i];
      if f.value.Some? {
        slots := slots + [Slot(f.column, next)];
        params := params + [f.value.value];
        next := next + 1;
      }
      i := i + 1;
    }
    assert fs[..i] == fs;
  }

  /** The parameter values the handlers send. */
  datatype Value = Text(text: string) | Number(number: int) | Flag(flag: bool) | Null

  /** `UPDATE ... SET <sets> WHERE <key> = $<whereIndex>` with its parameters. */
  datatype Update<C, T> = Update(sets: seq<Slot<C>>, params: seq<T>, whereIndex: nat)

  /** The SET items bind `want` from `$1` on, and the WHERE placeholder comes
      right after them and selects the row's key. */
  predicate UpdatesBy<C(==), T(==)>(u: Update<C, T>, want: seq<(C, T)>, key: T) {
    Binds(u.sets, u.params, want, 1) && u.whereIndex == |want| + 1
    && |u.params| == u.whereIndex && u.params[u.whereIndex - 1] == key
  }

  /** The SET list of the provided fields and the key pushed last; no query
      when no field is provided. */
  method BuildUpdate<C(==), T(==)>(fs: seq<Field<C, T>>, key: T) returns (u: Option<Update<C, T>>)
    ensures u.Some? <==> Provided(fs) != []
    ensures u.Some? ==> UpdatesBy(u.value, Provided(fs), key)
  {
    var slots, params, next := NumberFields(fs, []);
    if slots == [] {
      return None;
    }
    BindsExtend(slots, params, Provided(fs), 1, [key]);
    u := Some(Update(slots, params + [key], next));
  }

  /** The row after an UPDATE that sets these columns in this order. */
  function Assign<C(==), T>(row: map<C, T>, ps: seq<(C, T)>): map<C, T>
    decreases |ps|
  {
    if ps == [] then row else Assign(row, ps[..|ps| - 1])[ps[|ps| - 1].0 := ps[|ps| - 1].1]
  }

  /** A column set for the last time at position `i` ends up with that value. */
  lemma {:induction false} AssignSets<C, T>(row: map<C, T>, ps: seq<(C, T)>, i: nat)
    requires i < |ps| && forall j :: i < j < |ps| ==> ps[j].0 != ps[i].0
    ensures ps[i].0 in Assign(row, ps) && Assign(row, ps)[ps[i].0] == ps[i].1
    decreases |ps|
  {
    if i < |ps| - 1 {
      AssignSets(row, ps[..|ps| - 1], i);
    }
  }

  /** A column the update does not name keeps its value, or stays absent. */
  lemma {:induction false} AssignKeeps<C, T>(row: map<C, T>, ps: seq<(C, T)>, c: C)
    requires forall j :: 0 <= j < |ps| ==> ps[j].0 != c
    ensures (c in Assign(row, ps) <==> c in row) && (c in row ==> Assign(row, ps)[c] == row[c])
    decreases |ps|
  {
    if ps != [] {
      AssignKeeps(row, ps[..|ps| - 1], c);
    }
  }

  /** Columns of the provided list come from the fields. */
  lemma {:induction false} ProvidedColumns<C, T>(fs: seq<Field<C, T>>, j: nat)
    requires j < |Provided(fs)|
    ensures exists i :: 0 <= i < |fs| && fs[i].column == Provided(fs)[j].0 && fs[i].value == Some(Provided(fs)[j].1)
    decreases |fs|
  {
    var init := fs[..|fs| - 1];
    if j < |Provided(init)| {
      ProvidedColumns(init, j);
      var i :| 0 <= i < |init| && init[i].column == Provided(init)[j].0 && init[i].value == Some(Provided(init)[j].1);
      assert fs[i] == init[i];
    } else {
      assert fs[|fs| - 1].column == Provided(fs)[j].0;
    }
  }

  /** When every field carries a value, all of them are provided, in order. */
  lemma {:induction false} ProvidedAll<C, T>(fs: seq<Field<C, T>>)
    requires forall i :: 0 <= i < |fs| ==> fs[i].value.Some?
    ensures |Provided(fs)| == |fs|
    ensures forall i :: 0 <= i < |fs| ==> Provided(fs)[i] == (fs[i].column, fs[i].value.value)
    decreases |fs|
  {
    if fs != [] {
      var init := fs[..|fs| - 1];
      ProvidedAll(init);
      assert forall i :: 0 <= i < |init| ==> init[i] == fs[i];
    }
  }
}
