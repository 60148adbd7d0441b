/** `db/queries/pet_queries.rs`: the partial update of a pet. */
module PetQueries {
  import opened Wrappers
  import opened Text
  import opened Sql
  import opened PartialUpdate

  /** The weight as the text `f32::to_string` renders; the rendering itself is a parameter. */
  function WeightText(petWeight: Option<real>, render: real -> string): Option<string> {
    if petWeight.Some? then Some(render(petWeight.value)) else None
  }

  /** The optional columns of `update_pet`, in the order the function tests them. */
  function PetFields(petName: Option<string>, petBirthDate: Option<string>, petType: Option<string>,
                     petBreed: Option<string>, petWeight: Option<real>, petColor: Option<string>,
                     ownerId: Option<string>, render: real -> string): seq<Field>
  {
    [Field("pet_name", petName), Field("pet_birth_date", petBirthDate), Field("pet_type", petType),
     Field("pet_breed", petBreed), Field("pet_weight", WeightText(petWeight, render)),
     Field("pet_color", petColor), Field("owner_id", ownerId)]
  }

  const UpdateHead := "UPDATE pet SET "
  const UpdateTail := " WHERE pet_id = ?"

  /** `update_pet`: the SET list names exactly the supplied columns in the order name, birth date,
      type, breed, weight, color, owner, the bound values follow that order with `petId` last, and
      the weight is bound as its rendered text. */
  method UpdatePet(petId: string, petName: Option<string>, petBirthDate: Option<string>,
                   petType: Option<string>, petBreed: Option<string>, petWeight: Option<real>,
                   petColor: Option<string>, ownerId: Option<string>, render: real -> string)
    returns (stmt: Statement)
    ensures stmt == UpdateStatement(UpdateHead,
      PetFields(petName, petBirthDate, petType, petBreed, petWeight, petColor, ownerId, render), UpdateTail, petId)
  {
    ghost var fields := PetFields(petName, petBirthDate, petType, petBreed, petWeight, petColor, ownerId, render);
    var queryString := UpdateHead;
    var params: seq<string> := [];
    ghost var pushed: seq<Assignment> := [];
    queryString, params := PushIfSupplied(UpdateHead, pushed, queryString, params, "pet_name", petName);
    pushed := pushed + Assigned(Field("pet_name", petName));
    queryString, params := PushIfSupplied(UpdateHead, pushed, queryString, params, "pet_birth_date", petBirthDate);
    pushed := pushed + Assigned(Field("pet_birth_date", petBirthDate));
    queryString, params := PushIfSupplied(UpdateHead, pushed, queryString, params, "pet_type", petType);
    pushed := pushed + Assigned(Field("pet_type", petType));
    queryString, params := PushIfSupplied(UpdateHead, pushed, queryString, params, "pet_breed", petBreed);
    pushed := pushed + Assigned(Field("pet_breed", petBreed));
    var weight := WeightText(petWeight, render);
    queryString, params := PushIfSupplied(UpdateHead, pushed, queryString, params, "pet_weight", weight);
    pushed := pushed + Assigned(Field("pet_weight", weight));
    queryString, params := PushIfSupplied(UpdateHead, pushed, queryString, params, "pet_color", petColor);
    pushed := pushed + Assigned(Field("pet_color", petColor));
    queryString, params := PushIfSupplied(UpdateHead, pushed, queryString, params, "owner_id", ownerId);
    pushed := pushed + Assigned(Field("owner_id", ownerId));

    Supplied7(Field("pet_name", petName), Field("pet_birth_date", petBirthDate),
              Field("pet_type", petType), Field("pet_breed", petBreed),
              Field("pet_weight", weight), Field("pet_color", petColor),
              Field("owner_id", ownerId));
    HeadClean();
    stmt := FinishUpdate(UpdateHead, fields, queryString, params, " WHERE pet_id = ?", petId);
  }

  /** For every combination of supplied fields, the pet update has one placeholder per bound value. */
  lemma UpdatePetAligned(petId: string, petName: Option<string>, petBirthDate: Option<string>,
                         petType: Option<string>, petBreed: Option<string>, petWeight: Option<real>,
                         petColor: Option<string>, ownerId: Option<string>, render: real -> string)
    ensures Aligned(UpdateStatement(UpdateHead,
      PetFields(petName, petBirthDate, petType, petBreed, petWeight, petColor, ownerId, render), UpdateTail, petId))
  {
    var fields := PetFields(petName, petBirthDate, petType, petBreed, petWeight, petColor, ownerId, render);
    HeadFacts(fields);
    PlaceholdersMatchParams(UpdateHead, fields, UpdateTail, petId);
  }

  /** The fixed head of the update does not itself end in `", "`. */
  lemma HeadClean()
    ensures !EndsWith(UpdateHead, ", ")
  {
    assert UpdateHead[13] == 'T';
  }

  /** The fixed text around the SET list: no placeholder before it, one after it, no trailing
      `", "` of its own, and no `?` in a column name. */
  lemma HeadFacts(fields: seq<Field>)
    requires |fields| == 7
    requires fields[0].column == "pet_name" && fields[1].column == "pet_birth_date"
    requires fields[2].column == "pet_type" && fields[3].column == "pet_breed"
    requires fields[4].column == "pet_weight" && fields[5].column == "pet_color"
    requires fields[6].column == "owner_id"
    ensures !EndsWith(UpdateHead, ", ")
    ensures Placeholders(UpdateHead) == 0 && Placeholders(UpdateTail) == 1
    ensures forall k :: 0 <= k < |fields| ==> '?' !in fields[k].column
  {
    assert UpdateHead[13] == 'T';
    NoCharCount(UpdateHead, '?');
    assert UpdateTail == " WHERE pet_id = " + ['?'] + "";
    CountOne(" WHERE pet_id = ", "", '?');
  }

  /** With only the weight supplied, the statement sets that one column to the rendered weight. */
  lemma UpdateWeightOnly(petId: string, w: real, render: real -> string)
    ensures UpdateStatement(UpdateHead, PetFields(None, None, None, None, Some(w), None, None, render), UpdateTail, petId)
         == Statement("UPDATE pet SET pet_weight = ? WHERE pet_id = ?", [Text(render(w)), Text(petId)])
  {
    var a := [Assignment("pet_weight", render(w))];
    WeightOnlySupplied(w, render);
    assert SetList(a) == "pet_weight" + " = ?";
    assert Values(a) + [petId] == [render(w), petId];
    WeightOnlyText();
  }

  /** With nothing to change, nothing is truncated: the text keeps the double space before
      `WHERE` and only the key is bound. */
  lemma UpdatePetEmpty(petId: string, render: real -> string)
    ensures UpdateStatement(UpdateHead, PetFields(None, None, None, None, None, None, None, render), UpdateTail, petId)
         == Statement("UPDATE pet SET  WHERE pet_id = ?", [Text(petId)])
  {
    NoneSupplied(PetFields(None, None, None, None, None, None, None, render));
    assert Values([]) + [petId] == [petId];
    EmptyText();
  }

  lemma EmptyText()
    ensures UpdateHead + SetList([]) + UpdateTail == "UPDATE pet SET  WHERE pet_id = ?"
  {
  }

  /** Of the seven fields, only the weight is supplied. */
  lemma WeightOnlySupplied(w: real, render: real -> string)
    ensures Supplied(PetFields(None, None, None, None, Some(w), None, None, render)) == [Assignment("pet_weight", render(w))]
  {
    var fields := PetFields(None, None, None, None, Some(w), None, None, render);
    var before := [Field("pet_name", None), Field("pet_birth_date", None), Field("pet_type", None), Field("pet_breed", None)];
    var weight := Field("pet_weight", Some(render(w)));
    var after := [Field("pet_color", None), Field("owner_id", None)];
    assert fields == before + [weight] + after;
    NoneSupplied(before);
    NoneSupplied(after);
    SuppliedAppend(before + [weight], after);
    SuppliedAppend(before, [weight]);
    assert Supplied([weight]) == [Assignment("pet_weight", render(w))] by {
      assert [weight][..0] == [];
    }
  }

  lemma WeightOnlyText()
    ensures UpdateHead + ("pet_weight" + " = ?") + UpdateTail == "UPDATE pet SET pet_weight = ? WHERE pet_id = ?"
  {
  }
}
