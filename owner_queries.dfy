/** `db/queries/owner_queries.rs`: the statements the owner store builds from optional inputs. */
module OwnerQueries {
  import opened Wrappers
  import opened Text
  import opened Sql
  import opened PartialUpdate

  /** The optional columns of `update_owner`, in the order the function tests them. */
  function OwnerFields(ownerName: Option<string>, ownerEmail: Option<string>,
                       ownerPhoneNumber: Option<string>, ownerAddress: Option<string>): seq<Field>
  {
    [Field("owner_name", ownerName), Field("owner_email", ownerEmail),
     Field("owner_phone_number", ownerPhoneNumber), Field("owner_address", ownerAddress)]
  }

  const UpdateHead := "UPDATE owner SET "
  const UpdateTail := " WHERE owner_id = ?"

  /** `update_owner`: the statement it executes. The SET list names exactly the supplied columns
      in the order name, email, phone number, address, and the bound values follow that order with
      `ownerId` last; `UpdateOwnerAligned` shows there is one placeholder per bound value. */
  method UpdateOwner(ownerId: string, ownerName: Option<string>, ownerEmail: Option<string>,
                     ownerPhoneNumber: Option<string>, ownerAddress: Option<string>)
    returns (stmt: Statement)
    ensures stmt == UpdateStatement(UpdateHead, OwnerFields(ownerName, ownerEmail, ownerPhoneNumber, ownerAddress), UpdateTail, ownerId)
  {
    ghost var fields := OwnerFields(ownerName, ownerEmail, ownerPhoneNumber, ownerAddress);
    var queryString := UpdateHead;
    var params: seq<string> := [];
    ghost var pushed: seq<Assignment> := [];
    queryString, params := PushIfSupplied(UpdateHead, pushed, queryString, params, "owner_name", ownerName);
    pushed := pushed + Assigned(Field("owner_name", ownerName));
    queryString, params := PushIfSupplied(UpdateHead, pushed, queryString, params, "owner_email", ownerEmail);
    pushed := pushed + Assigned(Field("owner_email", ownerEmail));
    queryString, params := PushIfSupplied(UpdateHead, pushed, queryString, params, "owner_phone_number", ownerPhoneNumber);
    pushed := pushed + Assigned(Field("owner_phone_number", ownerPhoneNumber));
    queryString, params := PushIfSupplied(UpdateHead, pushed, queryString, params, "owner_address", ownerAddress);
    pushed := pushed + Assigned(Field("owner_address", ownerAddress));

    HeadClean();
    Supplied4(Field("owner_name", ownerName), Field("owner_email", ownerEmail),
              Field("owner_phone_number", ownerPhoneNumber), Field("owner_address", ownerAddress));
    stmt := FinishUpdate(UpdateHead, fields, queryString, params, " WHERE owner_id = ?", ownerId);
  }

  /** For every combination of supplied fields, the update has one placeholder per bound value. */
  lemma UpdateOwnerAligned(ownerId: string, ownerName: Option<string>, ownerEmail: Option<string>,
                           ownerPhoneNumber: Option<string>, ownerAddress: Option<string>)
    ensures Aligned(UpdateStatement(UpdateHead, OwnerFields(ownerName, ownerEmail, ownerPhoneNumber, ownerAddress), UpdateTail, ownerId))
  {
    HeadFacts(ownerName, ownerEmail, ownerPhoneNumber, ownerAddress);
    PlaceholdersMatchParams(UpdateHead, OwnerFields(ownerName, ownerEmail, ownerPhoneNumber, ownerAddress), UpdateTail, ownerId);
  }

  /** The fixed head of the update does not itself end in `", "`. */
  lemma HeadClean()
    ensures !EndsWith(UpdateHead, ", ")
  {
    assert UpdateHead[15] == 'T';
  }

  /** The fixed text around the SET list: no placeholder before it, one after it, and no
      trailing `", "` of its own. */
  lemma HeadFacts(ownerName: Option<string>, ownerEmail: Option<string>,
                  ownerPhoneNumber: Option<string>, ownerAddress: Option<string>)
    ensures !EndsWith(UpdateHead, ", ")
    ensures Placeholders(UpdateHead) == 0 && Placeholders(UpdateTail) == 1
    ensures var fields := OwnerFields(ownerName, ownerEmail, ownerPhoneNumber, ownerAddress);
      forall k :: 0 <= k < |fields| ==> '?' !in fields[k].column
  {
    assert UpdateHead[15] == 'T';
    NoCharCount(UpdateHead, '?');
    NoCharCount(" WHERE owner_id = ", '?');
    CountCharAppend(" WHERE owner_id = ", "?", '?');
    assert " WHERE owner_id = " + "?" == UpdateTail;
    assert "?"[..0] == [];
  }

  /** With nothing to change, nothing is truncated: the text keeps the double space before
      `WHERE` and only the key is bound. */
  lemma UpdateOwnerEmpty(ownerId: string)
    ensures UpdateStatement(UpdateHead, OwnerFields(None, None, None, None), UpdateTail, ownerId)
         == Statement("UPDATE owner SET  WHERE owner_id = ?", [Text(ownerId)])
  {
    NoneSupplied(OwnerFields(None, None, None, None));
    assert Values([]) + [ownerId] == [ownerId];
    EmptyText();
  }

  lemma EmptyText()
    ensures UpdateHead + SetList([]) + UpdateTail == "UPDATE owner SET  WHERE owner_id = ?"
  {
  }

  /** The pieces `select_all_owners` pushes onto its query. */
  const SelectBase := "SELECT * FROM owner "
  const SearchFilter := "WHERE owner_name LIKE ? "
  const OrderByName := "ORDER BY owner_name "
  const Window := "LIMIT ? OFFSET ?"

  /** `select_all_owners`: with a search term, filter on `owner_name LIKE ?` and bind `%term%`,
      then the limit and the offset; without one, bind the limit and the offset only. Either way
      the rows come ordered by name, and every placeholder receives one value. */
  method SelectAllOwners(limit: I32, offset: I32, search: Option<string>) returns (stmt: Statement)
    ensures search.Some? ==>
      stmt == Statement(SelectBase + SearchFilter + OrderByName + Window,
                        [Text("%" + search.value + "%"), Int(limit), Int(offset)])
    ensures search.None? ==>
      stmt == Statement(SelectBase + OrderByName + Window, [Int(limit), Int(offset)])
    ensures Aligned(stmt)
  {
    var query := SelectBase;
    SelectTextsAligned();
    match search {
      case Some(searchTerm) =>
        query := query + SearchFilter;
        query := query + OrderByName;
        query := query + Window;
        stmt := Statement(query, [Text("%" + searchTerm + "%"), Int(limit), Int(offset)]);
      case None =>
        query := query + OrderByName;
        query := query + Window;
        stmt := Statement(query, [Int(limit), Int(offset)]);
    }
  }

  /** The filtered listing text holds three placeholders, the unfiltered one two. */
  lemma SelectTextsAligned()
    ensures Placeholders(SelectBase + SearchFilter + OrderByName + Window) == 3
    ensures Placeholders(SelectBase + OrderByName + Window) == 2
  {
    NoCharCount(SelectBase, '?');
    NoCharCount(OrderByName, '?');
    FilterHasOne();
    WindowHasTwo();
    CountCharAppend(SelectBase, SearchFilter, '?');
    CountCharAppend(SelectBase + SearchFilter, OrderByName, '?');
    CountCharAppend(SelectBase + SearchFilter + OrderByName, Window, '?');
    CountCharAppend(SelectBase, OrderByName, '?');
    CountCharAppend(SelectBase + OrderByName, Window, '?');
  }

  lemma FilterHasOne()
    ensures Placeholders(SearchFilter) == 1
  {
    assert SearchFilter == "WHERE owner_name LIKE " + ['?'] + " ";
    CountOne("WHERE owner_name LIKE ", " ", '?');
  }

  lemma WindowHasTwo()
    ensures Placeholders(Window) == 2
  {
    var first := "LIMIT " + ['?'] + " OFFSET ";
    assert Window == first + ("" + ['?'] + "");
    CountOne("LIMIT ", " OFFSET ", '?');
    CountOne("", "", '?');
    CountCharAppend(first, "" + ['?'] + "", '?');
  }

  const CountBase := "SELECT COUNT(*) as count FROM owner "

  /** `format!("WHERE owner_name LIKE '%{}%' ", search_term)`. */
  function LikeFilter(term: string): string {
    "WHERE owner_name LIKE '%" + term + "%' "
  }

  /** The text `count_all_owners` sends: the base, followed by the filter when a term is given. */
  function CountQueryText(search: Option<string>): string {
    if search.Some? then CountBase + LikeFilter(search.value) else CountBase
  }

  /** `count_all_owners`: no value is bound; the search term is pasted into the text. */
  method CountAllOwners(search: Option<string>) returns (stmt: Statement)
    ensures stmt == Statement(CountQueryText(search), [])
  {
    var query := CountBase;
    if search.Some? {
      var searchTerm := search.value;
      query := query + LikeFilter(searchTerm);
    }
    stmt := Statement(query, []);
  }

  /** Because the term is pasted rather than bound, any `?` or `'` in it lands in the SQL itself:
      the counting statement is aligned only when the term holds no `?`, and each `'` in the term
      adds a quote to the two that delimit the pattern. */
  lemma {:induction false} CountQueryInjection(search: Option<string>)
    ensures Placeholders(CountQueryText(search)) == (if search.Some? then Placeholders(search.value) else 0)
    ensures Aligned(Statement(CountQueryText(search), [])) <==> search.None? || '?' !in search.value
    ensures CountChar(CountQueryText(search), '\'') == (if search.Some? then 2 + CountChar(search.value, '\'') else 0)
  {
    BaseCounts();
    if search.Some? {
      var term := search.value;
      PastedTermCounts(term);
      CountCharAppend(CountBase, LikeFilter(term), '?');
      CountCharAppend(CountBase, LikeFilter(term), '\'');
      if '?' in term {
        CountPositive(term, '?');
      } else {
        NoCharCount(term, '?');
      }
    }
  }

  /** The fixed head of the count query holds neither a placeholder nor a quote. */
  lemma BaseCounts()
    ensures CountChar(CountBase, '?') == 0 && CountChar(CountBase, '\'') == 0
  {
    NoCharCount(CountBase, '?');
    NoCharCount(CountBase, '\'');
  }

  /** Counts of `?` and `'` in the pasted filter: exactly those of the term, plus the two quotes. */
  lemma PastedTermCounts(term: string)
    ensures CountChar(LikeFilter(term), '?') == CountChar(term, '?')
    ensures CountChar(LikeFilter(term), '\'') == CountChar(term, '\'') + 2
  {
    var head := "WHERE owner_name LIKE ";
    NoCharCount(head, '?');
    NoCharCount(head, '\'');
    NoCharCount("%", '?');
    NoCharCount("%", '\'');
    NoCharCount(" ", '?');
    NoCharCount(" ", '\'');
    assert "'"[..0] == [];
    assert CountChar("'", '\'') == 1 && CountChar("'", '?') == 0;
    var s1 := head + "'";
    var s2 := s1 + "%";
    var s3 := s2 + term;
    var s4 := s3 + "%";
    var s5 := s4 + "'";
    assert s5 + " " == LikeFilter(term);
    forall c | c == '?' || c == '\''
      ensures CountChar(s5 + " ", c) == CountChar(term, c) + (if c == '\'' then 2 else 0)
    {
      CountCharAppend(head, "'", c);
      CountCharAppend(s1, "%", c);
      CountCharAppend(s2, term, c);
      CountCharAppend(s3, "%", c);
      CountCharAppend(s4, "'", c);
      CountCharAppend(s5, " ", c);
    }
  }
}
