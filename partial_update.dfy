/** The reference shape of the partial-update statements that `update_owner` and `update_pet`
    build by hand: `UPDATE <table> SET c1 = ?, ..., cn = ? WHERE <key> = ?`, listing only the
    supplied columns, in their fixed order, with the supplied values bound in the same order
    and the key value bound last. */
module PartialUpdate {
  import opened Wrappers
  import opened Text
  import opened Sql

  /** One optional column of an update request. */
  datatype Field = Field(column: string, value: Option<string>)

  /** A column that will be set, with its value. */
  datatype Assignment = Assignment(column: string, value: string)

  /** What one field contributes: its assignment when it is supplied, nothing otherwise. */
  function Assigned(f: Field): seq<Assignment> {
    if f.value.Some? then [Assignment(f.column, f.value.value)] else []
  }

  /** The supplied fields, in request order. */
  function Supplied(fields: seq<Field>): (r: seq<Assignment>)
    ensures |r| <= |fields|
  {
    if fields == [] then [] else Supplied(fields[..|fields| - 1]) + Assigned(fields[|fields| - 1])
  }

  /** The SET list: `c1 = ?, c2 = ?, ..., cn = ?`. */
  function SetList(a: seq<Assignment>): string {
    if a == [] then ""
    else if |a| == 1 then a[0].column + " = ?"
    else SetList(a[..|a| - 1]) + ", " + a[|a| - 1].column + " = ?"
  }

  /** The values of the assignments, in order. */
  function Values(a: seq<Assignment>): (r: seq<string>)
    ensures |r| == |a|
    ensures forall k :: 0 <= k < |a| ==> r[k] == a[k].value
  {
    if a == [] then [] else Values(a[..|a| - 1]) + [a[|a| - 1].value]
  }

  /** The statement a partial update should execute: `head` is `UPDATE <table> SET `, `tail` is
      ` WHERE <key> = ?`, and `keyValue` is bound to the key placeholder. */
  function UpdateStatement(head: string, fields: seq<Field>, tail: string, keyValue: string): Statement {
    Statement(head + SetList(Supplied(fields)) + tail, Bind(Values(Supplied(fields)) + [keyValue]))
  }

  /** What a builder holds once it has pushed the assignments `a`: the pending text and the
      values. */
  predicate Built(head: string, a: seq<Assignment>, text: string, params: seq<string>) {
    text == head + Pending(a) && params == Values(a)
  }

  /** One `if let Some(..)` block of a builder, handling the field `f`. */
  lemma BuiltStep(head: string, a: seq<Assignment>, f: Field, text: string, params: seq<string>)
    requires Built(head, a, text, params)
    ensures Built(head, a + Assigned(f), text + (if f.value.Some? then f.column + " = ?, " else ""),
                  params + (if f.value.Some? then [f.value.value] else []))
  {
    if f.value.Some? {
      var x := Assignment(f.column, f.value.value);
      Append(a, x);
      assert head + (Pending(a) + x.column + " = ?, ") == text + (f.column + " = ?, ");
    } else {
      assert a + [] == a && text + "" == text && params + [] == params;
    }
  }

  /** The supplied fields of one more field. */
  lemma SuppliedSnoc(fields: seq<Field>, f: Field)
    ensures Supplied(fields + [f]) == Supplied(fields) + Assigned(f)
  {
    assert (fields + [f])[..|fields|] == fields;
  }

  /** The supplied fields of the four owner columns, one field at a time. */
  lemma Supplied4(f0: Field, f1: Field, f2: Field, f3: Field)
    ensures Supplied([f0, f1, f2, f3]) == [] + Assigned(f0) + Assigned(f1) + Assigned(f2) + Assigned(f3)
  {
    SuppliedSnoc([], f0);
    SuppliedSnoc([f0], f1);
    SuppliedSnoc([f0, f1], f2);
    SuppliedSnoc([f0, f1, f2], f3);
    assert [] + [f0] == [f0];
    assert [f0] + [f1] == [f0, f1];
    assert [f0, f1] + [f2] == [f0, f1, f2];
    assert [f0, f1, f2] + [f3] == [f0, f1, f2, f3];
  }

  /** The supplied fields of the seven pet columns, one field at a time. */
  lemma Supplied7(f0: Field, f1: Field, f2: Field, f3: Field, f4: Field, f5: Field, f6: Field)
    ensures Supplied([f0, f1, f2, f3, f4, f5, f6])
         == [] + Assigned(f0) + Assigned(f1) + Assigned(f2) + Assigned(f3) + Assigned(f4) + Assigned(f5) + Assigned(f6)
  {
    Supplied4(f0, f1, f2, f3);
    SuppliedSnoc([f0, f1, f2, f3], f4);
    SuppliedSnoc([f0, f1, f2, f3, f4], f5);
    SuppliedSnoc([f0, f1, f2, f3, f4, f5], f6);
    assert [f0, f1, f2, f3] + [f4] == [f0, f1, f2, f3, f4];
    assert [f0, f1, f2, f3, f4] + [f5] == [f0, f1, f2, f3, f4, f5];
    assert [f0, f1, f2, f3, f4, f5] + [f6] == [f0, f1, f2, f3, f4, f5, f6];
  }

  /** One `if let Some(value) = .. { query_string.push_str("<column> = ?, "); params.push(value) }`
      block of a builder: it appends the assignment and the value exactly when the field is
      supplied, and so takes the builder past one more field. */
  method PushIfSupplied(ghost head: string, ghost a: seq<Assignment>,
                        text: string, params: seq<string>, column: string, value: Option<string>)
    returns (text': string, params': seq<string>)
    requires Built(head, a, text, params)
    ensures text' == text + (if value.Some? then column + " = ?, " else "")
    ensures params' == params + (if value.Some? then [value.value] else [])
    ensures Built(head, a + Assigned(Field(column, value)), text', params')
  {
    BuiltStep(head, a, Field(column, value), text, params);
    text', params' := text, params;
    if value.Some? {
      text' := text' + (column + " = ?, ");
      params' := params' + [value.value];
    }
  }

  /** The end of a builder: cut the trailing `", "` if there is one, then append the key clause. */
  lemma BuiltFinish(head: string, fields: seq<Field>, text: string, params: seq<string>, tail: string, keyValue: string)
    requires Built(head, Supplied(fields), text, params) && !EndsWith(head, ", ")
    ensures var cut := if EndsWith(text, ", ") then text[..|text| - 2] else text;
      Statement(cut + tail, Bind(params + [keyValue])) == UpdateStatement(head, fields, tail, keyValue)
  {
    Truncate(head, Supplied(fields));
  }

  /** The end shared by both builders: `if query_string.ends_with(", ") { truncate(len - 2) }`, push
      the key clause and the key value, then bind every value in order. */
  method FinishUpdate(ghost head: string, ghost fields: seq<Field>, text: string, params: seq<string>,
                      tail: string, keyValue: string)
    returns (stmt: Statement)
    requires Built(head, Supplied(fields), text, params) && !EndsWith(head, ", ")
    ensures stmt == UpdateStatement(head, fields, tail, keyValue)
  {
    BuiltFinish(head, fields, text, params, tail, keyValue);
    var queryString := text;
    if EndsWith(queryString, ", ") {
      queryString := queryString[..|queryString| - 2];
    }
    queryString := queryString + tail;
    var values := params + [keyValue];
    var bound := BindAll(values);
    stmt := Statement(queryString, bound);
  }

  /** Pending text: each assignment followed by `", "`, as the builders append them. */
  function Pending(a: seq<Assignment>): string {
    if a == [] then "" else Pending(a[..|a| - 1]) + a[|a| - 1].column + " = ?, "
  }

  /** Appending one more assignment, as each `if let Some(..)` block does. */
  lemma Append(a: seq<Assignment>, x: Assignment)
    ensures Pending(a + [x]) == Pending(a) + x.column + " = ?, "
    ensures Values(a + [x]) == Values(a) + [x.value]
  {
    assert (a + [x])[..|a|] == a;
  }

  /** The `ends_with(", ")`/`truncate` step: after a prefix that does not itself end in `", "`,
      the pending text ends in `", "` exactly when something was supplied, and cutting those two
      characters leaves the SET list. */
  lemma Truncate(prefix: string, a: seq<Assignment>)
    requires !EndsWith(prefix, ", ")
    ensures EndsWith(prefix + Pending(a), ", ") <==> a != []
    ensures a != [] ==> (prefix + Pending(a))[..|prefix + Pending(a)| - 2] == prefix + SetList(a)
  {
    if a != [] {
      PendingIsSetList(a);
      assert prefix + Pending(a) == (prefix + SetList(a)) + ", ";
    } else {
      assert prefix + Pending(a) == prefix;
    }
  }

  /** Removing the trailing `", "` from the pending text gives the SET list. */
  lemma {:induction false} PendingIsSetList(a: seq<Assignment>)
    requires a != []
    ensures Pending(a) == SetList(a) + ", "
  {
    if |a| > 1 {
      PendingIsSetList(a[..|a| - 1]);
    }
  }

  lemma {:induction false} SuppliedAppend(a: seq<Field>, b: seq<Field>)
    ensures Supplied(a + b) == Supplied(a) + Supplied(b)
    decreases |b|
  {
    if b == [] {
      assert a + b == a;
    } else {
      assert (a + b)[..|a + b| - 1] == a + b[..|b| - 1];
      SuppliedAppend(a, b[..|b| - 1]);
    }
  }

  /** Fields none of which is supplied contribute no assignment. */
  lemma {:induction false} NoneSupplied(fields: seq<Field>)
    requires forall k :: 0 <= k < |fields| ==> fields[k].value.None?
    ensures Supplied(fields) == []
  {
    if fields != [] {
      NoneSupplied(fields[..|fields| - 1]);
    }
  }

  /** One builder step: the supplied fields of a prefix one longer. */
  lemma SuppliedStep(fields: seq<Field>, k: nat)
    requires k < |fields|
    ensures Supplied(fields[..k + 1]) == Supplied(fields[..k]) +
      (if fields[k].value.Some? then [Assignment(fields[k].column, fields[k].value.value)] else [])
  {
    assert fields[..k + 1][..k] == fields[..k];
  }

  /** Supplied values never contain an absent field, and every present field shows up. */
  lemma {:induction false} SuppliedCount(fields: seq<Field>)
    ensures |Supplied(fields)| == |set k | 0 <= k < |fields| && fields[k].value.Some?|
  {
    if fields != [] {
      var n := |fields| - 1;
      SuppliedCount(fields[..n]);
      assert |Supplied(fields)| == |Supplied(fields[..n])| + |Assigned(fields[n])|;
      var before := set k | 0 <= k < n && fields[..n][k].value.Some?;
      var all := set k | 0 <= k < |fields| && fields[k].value.Some?;
      assert before == set k | 0 <= k < n && fields[k].value.Some?;
      if fields[n].value.Some? {
        assert all == before + {n};
      } else {
        assert all == before;
      }
    }
  }

  lemma {:induction false} SetListPlaceholders(a: seq<Assignment>)
    requires forall k :: 0 <= k < |a| ==> '?' !in a[k].column
    ensures Placeholders(SetList(a)) == |a|
  {
    NoCharCount(" = ", '?');
    CountCharAppend(" = ", "?", '?');
    assert " = " + "?" == " = ?";
    assert "?"[..0] == [];
    NoCharCount(", ", '?');
    if |a| == 1 {
      CountCharAppend(a[0].column, " = ?", '?');
      NoCharCount(a[0].column, '?');
    } else if |a| > 1 {
      var init := a[..|a| - 1];
      var last := a[|a| - 1];
      SetListPlaceholders(init);
      CountCharAppend(SetList(init) + ", " + last.column, " = ?", '?');
      CountCharAppend(SetList(init) + ", ", last.column, '?');
      CountCharAppend(SetList(init), ", ", '?');
      NoCharCount(last.column, '?');
    }
  }

  /** Placeholders and bound values line up, whichever fields are supplied, provided the head and
      the column names hold no `?` and the tail holds exactly one. */
  lemma PlaceholdersMatchParams(head: string, fields: seq<Field>, tail: string, keyValue: string)
    requires Placeholders(head) == 0 && Placeholders(tail) == 1
    requires forall k :: 0 <= k < |fields| ==> '?' !in fields[k].column
    ensures Aligned(UpdateStatement(head, fields, tail, keyValue))
  {
    var a := Supplied(fields);
    SuppliedNoMark(fields);
    SetListPlaceholders(a);
    CountCharAppend(head, SetList(a), '?');
    CountCharAppend(head + SetList(a), tail, '?');
  }

  /** Supplied columns are request columns, so they too are free of `?`. */
  lemma {:induction false} SuppliedNoMark(fields: seq<Field>)
    requires forall k :: 0 <= k < |fields| ==> '?' !in fields[k].column
    ensures forall k :: 0 <= k < |Supplied(fields)| ==> '?' !in Supplied(fields)[k].column
  {
    if fields != [] {
      SuppliedNoMark(fields[..|fields| - 1]);
    }
  }

  /** The supplied fields around the `i`-th one. */
  lemma SuppliedSplit(fields: seq<Field>, i: nat)
    requires i < |fields|
    ensures Supplied(fields) == Supplied(fields[..i]) + Assigned(fields[i]) + Supplied(fields[i + 1..])
  {
    var before, after := fields[..i], fields[i + 1..];
    Around(fields, i);
    SuppliedAppend(before + [fields[i]], after);
    SuppliedSnoc(before, fields[i]);
  }

  /** A sequence is what comes before its `i`-th element, that element, and what comes after. */
  lemma Around<T>(s: seq<T>, i: nat)
    requires i < |s|
    ensures s == (s[..i] + [s[i]]) + s[i + 1..]
  {
  }

  /** Supplying one more field adds exactly one placeholder and one bound value. */
  lemma SupplyOneMore(head: string, fields: seq<Field>, tail: string, keyValue: string, i: nat, v: string)
    requires i < |fields| && fields[i].value.None?
    requires Placeholders(head) == 0 && Placeholders(tail) == 1
    requires forall k :: 0 <= k < |fields| ==> '?' !in fields[k].column
    ensures var more := fields[i := Field(fields[i].column, Some(v))];
      |UpdateStatement(head, more, tail, keyValue).params| == |UpdateStatement(head, fields, tail, keyValue).params| + 1
      && Placeholders(UpdateStatement(head, more, tail, keyValue).text)
         == Placeholders(UpdateStatement(head, fields, tail, keyValue).text) + 1
  {
    var more := fields[i := Field(fields[i].column, Some(v))];
    SuppliedSplit(fields, i);
    SuppliedSplit(more, i);
    assert more[..i] == fields[..i] && more[i + 1..] == fields[i + 1..];
    assert |Supplied(more)| == |Supplied(fields)| + 1;
    PlaceholdersMatchParams(head, fields, tail, keyValue);
    PlaceholdersMatchParams(head, more, tail, keyValue);
  }

  /** Whatever is supplied, the character right before ` WHERE` is the last `?` of the SET list,
      or the space after `SET` when nothing is supplied: no dangling `", "` is left behind. */
  lemma {:induction false} SetListEndsCleanly(a: seq<Assignment>)
    ensures a != [] ==> |SetList(a)| > 0 && SetList(a)[|SetList(a)| - 1] == '?'
  {
  }

  /** After the `ends_with(", ")`/`truncate` step, the text in front of ` WHERE` never ends in
      `", "`, whichever fields are supplied: no `", WHERE"` reaches the statement. */
  lemma NoDanglingSeparator(head: string, fields: seq<Field>)
    requires !EndsWith(head, ", ")
    ensures !EndsWith(head + SetList(Supplied(fields)), ", ")
  {
    var a := Supplied(fields);
    if a == [] {
      assert head + SetList(a) == head;
    } else {
      SetListEndsCleanly(a);
      var t := head + SetList(a);
      assert t[|t| - 1] == SetList(a)[|SetList(a)| - 1] == '?';
      assert ", "[1] == ' ';
    }
  }
}
