/**
 * The first-generation relation inference (src/lib/getRelations.ts): every
 * field of every parsed model is looked at in turn, a field typed by its own
 * model becomes a self relation, a field typed by another model is offered to
 * the one-one, one-many and implicit many-many classifiers in that order, and
 * a relation is kept only when no relation with the same id was kept before.
 */
module RelationInference {
  import opened Results
  import opened Text
  import opened OrderedMap
  import opened ParsedModels
  import opened Dedup
  import opened Offers

  /** The `type` of a relation. */
  datatype Kind = OneOne | OneMany | ManyManyImplicit | SelfOneOne | SelfOneMany

  /** One end of a relation: a model and a field of it. */
  datatype Endpoint = Endpoint(modelName: string, modelField: string)

  /** One inferred relation; `name` is `None` where the source copies a `null`. */
  datatype Relation = Relation(
    name: Option<string>,
    between: (string, string),
    from: Endpoint,
    to: Endpoint,
    kind: Kind,
    id: string)

  /** The id by which relations are told apart. */
  function RelId(r: Relation): string {
    r.id
  }

  /** Every model record can list its fields, and so can the dictionary of models. */
  ghost predicate WellFormed(models: OMap<ModelData>) {
    Valid(models) && forall k :: k in models.entries ==> Valid(models.entries[k].fields)
  }

  /**
   * `generateRelId`: the two model names sorted and the two field names
   * sorted, all four joined by `-`.
   */
  function GenerateRelId(models: (string, string), fields: (string, string)): (id: string)
    ensures exists ms, fs :: SortedPair(ms, models.0, models.1) && SortedPair(fs, fields.0, fields.1) &&
                             id == ms.0 + "-" + ms.1 + "-" + fs.0 + "-" + fs.1
  {
    var ms := Sort2(models.0, models.1);
    var fs := Sort2(fields.0, fields.1);
    ms.0 + "-" + ms.1 + "-" + fs.0 + "-" + fs.1
  }

  /** The id does not depend on which model or which field comes first. */
  lemma GenerateRelIdSymmetric(a: string, b: string, c: string, d: string)
    ensures GenerateRelId((a, b), (c, d)) == GenerateRelId((b, a), (c, d))
    ensures GenerateRelId((a, b), (c, d)) == GenerateRelId((a, b), (d, c))
  {
    Sort2Symmetric(a, b);
    Sort2Symmetric(c, d);
  }

  /** `a ?? b` on two possibly-null strings. */
  function OrElse(a: Option<string>, b: Option<string>): (r: Option<string>)
    ensures r.Some? <==> a.Some? || b.Some?
    ensures a.Some? ==> r == a
    ensures a.None? ==> r == b
  {
    if a.Some? then a else b
  }

  // ---------------------------------------------------------------------------
  // Self relations

  /** `f.relation?.name == relName && f.name !== firstName` */
  predicate IsPartner(f: Field, relName: string, firstName: string) {
    f.relation.Some? && f.relation.value.name == Some(relName) && f.name != firstName
  }

  /** `fs.find(...)`: the first partner of the field named `firstName`. */
  function FindPartner(fs: seq<Field>, relName: string, firstName: string): (r: Option<Field>)
    ensures r.Some? ==> IsPartner(r.value, relName, firstName)
    decreases |fs|
  {
    if fs == [] then None
    else if IsPartner(fs[0], relName, firstName) then Some(fs[0])
    else FindPartner(fs[1..], relName, firstName)
  }

  /** `find` yields nothing exactly when no field is a partner, and otherwise the first partner. */
  lemma {:induction false} FindPartnerFirst(fs: seq<Field>, relName: string, firstName: string)
    ensures FindPartner(fs, relName, firstName).None? <==>
            forall i :: 0 <= i < |fs| ==> !IsPartner(fs[i], relName, firstName)
    ensures FindPartner(fs, relName, firstName).Some? ==>
            exists i :: 0 <= i < |fs| && fs[i] == FindPartner(fs, relName, firstName).value &&
                        forall j :: 0 <= j < i ==> !IsPartner(fs[j], relName, firstName)
    decreases |fs|
  {
    if fs != [] && !IsPartner(fs[0], relName, firstName) {
      var rest := fs[1..];
      FindPartnerFirst(rest, relName, firstName);
      assert forall i :: 0 <= i < |rest| ==> rest[i] == fs[i + 1];
      if FindPartner(rest, relName, firstName).Some? {
        var i :| 0 <= i < |rest| && rest[i] == FindPartner(rest, relName, firstName).value &&
                 forall j :: 0 <= j < i ==> !IsPartner(rest[j], relName, firstName);
        assert fs[i + 1] == FindPartner(fs, relName, firstName).value;
      }
    }
  }

  /**
   * The kind of a self relation from its two fields: both optional is
   * one-one, an optional field facing a list is one-many, anything else is
   * no self relation.
   */
  function SelfKind(first: Field, second: Field): Option<Kind> {
    if first.optional && second.optional then Some(SelfOneOne)
    else if (first.optional && second.iterable) || (first.iterable && second.optional) then Some(SelfOneMany)
    else None
  }

  /** Both sides of a self relation classify it the same way. */
  lemma SelfKindSymmetric(first: Field, second: Field)
    ensures SelfKind(first, second) == SelfKind(second, first)
  {
  }

  /**
   * `handleSelfRelations`: pairs the field with the first other field of the
   * model carrying the same relation name; `references` and `fields` are
   * taken from the field itself or else from its partner.
   */
  function HandleSelfRelations(model: ModelData, first: Field): (r: Result<Relation>)
    requires Valid(model.fields)
    requires first.relation.Some? && Truthy(first.relation.value.name)
    ensures r.Err? ==> r.fault == InvalidSchema
    ensures r.Ok? ==> r.value.kind in {SelfOneOne, SelfOneMany} && r.value.between == (model.name, model.name)
    ensures r.Ok? ==> r.value.from.modelName == model.name && r.value.to.modelName == model.name
    ensures r.Ok? ==> r.value.name == first.relation.value.name
  {
    var relName := first.relation.value.name.value;
    match FindPartner(Values(model.fields), relName, first.name)
    case None => Err(InvalidSchema)
    case Some(second) =>
      var parentKey := OrElse(first.relation.value.references, second.relation.value.references);
      var foreignKey := OrElse(first.relation.value.foreignKey, second.relation.value.foreignKey);
      var kind := SelfKind(first, second);
      if kind.None? || !Truthy(parentKey) || !Truthy(foreignKey) then Err(InvalidSchema)
      else
        Ok(Relation(Some(relName), (model.name, model.name),
                    Endpoint(model.name, parentKey.value), Endpoint(model.name, foreignKey.value),
                    kind.value, GenerateRelId((model.name, model.name), (parentKey.value, foreignKey.value))))
  }

  /** `fs[i]` is the first partner of the field named `firstName` in `fs`. */
  predicate FirstPartnerAt(fs: seq<Field>, relName: string, firstName: string, i: nat) {
    i < |fs| && IsPartner(fs[i], relName, firstName) &&
    forall j :: 0 <= j < i ==> !IsPartner(fs[j], relName, firstName)
  }

  /** A self-typed field with no other field of the same relation name is a broken schema. */
  lemma SelfRelationNeedsPartner(model: ModelData, first: Field)
    requires Valid(model.fields)
    requires first.relation.Some? && Truthy(first.relation.value.name)
    requires forall f :: f in Values(model.fields) ==> !IsPartner(f, first.relation.value.name.value, first.name)
    ensures HandleSelfRelations(model, first) == Err(InvalidSchema)
  {
    var fs := Values(model.fields);
    var relName := first.relation.value.name.value;
    assert forall i :: 0 <= i < |fs| ==> fs[i] in fs;
    FindPartnerFirst(fs, relName, first.name);
  }

  /**
   * Given the first partner `fs[i]` of a self-typed field, a self relation
   * exists exactly when the pair is one-one or one-many and between them the
   * two fields supply non-empty `references` and `fields`; its kind is the
   * pair's, and its ends are those two keys, the field's own taking precedence.
   */
  lemma SelfRelationPaired(model: ModelData, first: Field, i: nat)
    requires Valid(model.fields)
    requires first.relation.Some? && Truthy(first.relation.value.name)
    requires FirstPartnerAt(Values(model.fields), first.relation.value.name.value, first.name, i)
    ensures var second := Values(model.fields)[i];
            var parentKey := OrElse(first.relation.value.references, second.relation.value.references);
            var foreignKey := OrElse(first.relation.value.foreignKey, second.relation.value.foreignKey);
            var r := HandleSelfRelations(model, first);
            && (r.Ok? <==> SelfKind(first, second).Some? && Truthy(parentKey) && Truthy(foreignKey))
            && (r.Ok? ==> r.value.kind == SelfKind(first, second).value &&
                          Some(r.value.from.modelField) == parentKey && Some(r.value.to.modelField) == foreignKey &&
                          r.value.id == GenerateRelId((model.name, model.name), (parentKey.value, foreignKey.value)))
  {
    var fs := Values(model.fields);
    var relName := first.relation.value.name.value;
    FindPartnerFirst(fs, relName, first.name);
    var k :| 0 <= k < |fs| && fs[k] == FindPartner(fs, relName, first.name).value &&
             forall j :: 0 <= j < k ==> !IsPartner(fs[j], relName, first.name);
    assert k == i;
  }

  // ---------------------------------------------------------------------------
  // Relations between two models

  /** The child field's relation names both `fields` and `references`, each non-empty. */
  predicate HasKeys(f: Field) {
    f.relation.Some? && Truthy(f.relation.value.foreignKey) && Truthy(f.relation.value.references)
  }

  /** A field of the parent typed by the child model, being a list exactly when `list` holds. */
  predicate IsBackRef(f: Field, child: string, list: bool) {
    f.dType == child && f.iterable == list
  }

  /** The first field of `fs` that is a back reference. */
  function FindBackRef(fs: seq<Field>, child: string, list: bool): (r: Option<Field>)
    ensures r.Some? ==> IsBackRef(r.value, child, list)
    decreases |fs|
  {
    if fs == [] then None
    else if IsBackRef(fs[0], child, list) then Some(fs[0])
    else FindBackRef(fs[1..], child, list)
  }

  /** The search finds nothing exactly when no field is a back reference, and otherwise the first one. */
  lemma {:induction false} FindBackRefFirst(fs: seq<Field>, child: string, list: bool)
    ensures FindBackRef(fs, child, list).None? <==> forall i :: 0 <= i < |fs| ==> !IsBackRef(fs[i], child, list)
    ensures FindBackRef(fs, child, list).Some? ==>
            exists i :: 0 <= i < |fs| && fs[i] == FindBackRef(fs, child, list).value &&
                        forall j :: 0 <= j < i ==> !IsBackRef(fs[j], child, list)
    decreases |fs|
  {
    if fs != [] && !IsBackRef(fs[0], child, list) {
      var rest := fs[1..];
      FindBackRefFirst(rest, child, list);
      assert forall i :: 0 <= i < |rest| ==> rest[i] == fs[i + 1];
      if FindBackRef(rest, child, list).Some? {
        var i :| 0 <= i < |rest| && rest[i] == FindBackRef(rest, child, list).value &&
                 forall j :: 0 <= j < i ==> !IsBackRef(rest[j], child, list);
        assert fs[i + 1] == FindBackRef(fs, child, list).value;
      }
    }
  }

  /** The fields of the parent model, in declaration order. */
  function ParentFields(models: OMap<ModelData>, parent: string): seq<Field>
    requires parent in models.entries && Valid(models.entries[parent].fields)
  {
    Values(models.entries[parent].fields)
  }

  /** The relation the child field's `fields`/`references` describe, from the parent's key to the child's. */
  function KeyedRelation(parent: string, child: string, childField: Field, kind: Kind): (r: Relation)
    requires HasKeys(childField)
    ensures r.between == (parent, child) && r.kind == kind
    ensures r.from == Endpoint(parent, childField.relation.value.references.value)
    ensures r.to == Endpoint(child, childField.relation.value.foreignKey.value)
  {
    var rel := childField.relation.value;
    Relation(rel.name, (parent, child), Endpoint(parent, rel.references.value), Endpoint(child, rel.foreignKey.value),
             kind, GenerateRelId((parent, child), (rel.foreignKey.value, rel.references.value)))
  }

  /** `handleOneOne`: the child field holds the keys and the parent has a single field of the child's type. */
  function HandleOneOne(models: OMap<ModelData>, parent: string, child: string, childField: Field): (r: Option<Relation>)
    requires parent in models.entries && Valid(models.entries[parent].fields)
    ensures r.Some? ==> HasKeys(childField) && r.value == KeyedRelation(parent, child, childField, OneOne)
  {
    if !HasKeys(childField) then None
    else if FindBackRef(ParentFields(models, parent), child, false).Some? then Some(KeyedRelation(parent, child, childField, OneOne))
    else None
  }

  /** `handleOneMany`: the child field holds the keys and the parent has a list of the child's type. */
  function HandleOneMany(models: OMap<ModelData>, parent: string, child: string, childField: Field): (r: Option<Relation>)
    requires parent in models.entries && Valid(models.entries[parent].fields)
    ensures r.Some? ==> HasKeys(childField) && r.value == KeyedRelation(parent, child, childField, OneMany)
  {
    if !HasKeys(childField) then None
    else if FindBackRef(ParentFields(models, parent), child, true).Some? then Some(KeyedRelation(parent, child, childField, OneMany))
    else None
  }

  /**
   * `handleManyManyImplicit`: a list field facing a list field of the parent;
   * the ends are the two list fields and a missing name becomes `""`. (The
   * source tests the child field inside the loop over the parent's fields,
   * which fails for every parent field when the child field is no list.)
   */
  function HandleManyManyImplicit(models: OMap<ModelData>, parent: string, child: string, childField: Field): (r: Option<Relation>)
    requires parent in models.entries && Valid(models.entries[parent].fields)
    ensures r.Some? ==> childField.iterable && FindBackRef(ParentFields(models, parent), child, true).Some?
    ensures r.Some? ==> r.value.kind == ManyManyImplicit && r.value.between == (parent, child)
    ensures r.Some? ==> r.value.to == Endpoint(child, childField.name)
    ensures r.Some? ==> (var parentField := FindBackRef(ParentFields(models, parent), child, true).value;
      r.value.from == Endpoint(parent, parentField.name) &&
      r.value.id == GenerateRelId((parent, child), (childField.name, parentField.name)))
    ensures r.Some? && childField.relation.Some? && childField.relation.value.name.Some? ==>
      r.value.name == childField.relation.value.name
    ensures r.Some? && (childField.relation.None? || childField.relation.value.name.None?) ==> r.value.name == Some("")
  {
    if !childField.iterable then None
    else
      match FindBackRef(ParentFields(models, parent), child, true)
      case None => None
      case Some(parentField) =>
        var name := if childField.relation.Some? && childField.relation.value.name.Some?
                    then childField.relation.value.name.value else "";
        Some(Relation(Some(name), (parent, child), Endpoint(parent, parentField.name), Endpoint(child, childField.name),
                      ManyManyImplicit, GenerateRelId((parent, child), (childField.name, parentField.name))))
  }

  /** The relation `handleRelations` offers: the first classifier that answers wins. */
  function CrossRelation(models: OMap<ModelData>, parent: string, child: string, childField: Field): (r: Option<Relation>)
    requires parent in models.entries && Valid(models.entries[parent].fields)
    ensures r.Some? ==> r.value.between == (parent, child) && r.value.kind in {OneOne, OneMany, ManyManyImplicit}
  {
    var oneOne := HandleOneOne(models, parent, child, childField);
    if oneOne.Some? then oneOne
    else
      var oneMany := HandleOneMany(models, parent, child, childField);
      if oneMany.Some? then oneMany
      else HandleManyManyImplicit(models, parent, child, childField)
  }

  /** The parent has a field of the child's type that is a list exactly when `list` holds. */
  ghost predicate HasBackRef(models: OMap<ModelData>, parent: string, child: string, list: bool)
    requires parent in models.entries && Valid(models.entries[parent].fields)
  {
    exists i :: 0 <= i < |ParentFields(models, parent)| && IsBackRef(ParentFields(models, parent)[i], child, list)
  }

  /**
   * Each classifier answers exactly when its condition holds: one-one and
   * one-many need the keys on the child field and a single, respectively a
   * list, back reference in the parent; implicit many-many needs the child
   * field to be a list and a list back reference in the parent.
   */
  lemma HandlersAnswer(models: OMap<ModelData>, parent: string, child: string, childField: Field)
    requires parent in models.entries && Valid(models.entries[parent].fields)
    ensures HandleOneOne(models, parent, child, childField).Some? <==>
            HasKeys(childField) && HasBackRef(models, parent, child, false)
    ensures HandleOneMany(models, parent, child, childField).Some? <==>
            HasKeys(childField) && HasBackRef(models, parent, child, true)
    ensures HandleManyManyImplicit(models, parent, child, childField).Some? <==>
            childField.iterable && HasBackRef(models, parent, child, true)
  {
    FindBackRefFirst(ParentFields(models, parent), child, false);
    FindBackRefFirst(ParentFields(models, parent), child, true);
  }

  /**
   * Which kind a cross relation gets: one-one when the child field holds the
   * keys and the parent has a single back reference, else one-many when it
   * holds the keys and the parent has a list back reference, else implicit
   * many-many between two lists, else none.
   */
  lemma CrossRelationKinds(models: OMap<ModelData>, parent: string, child: string, childField: Field)
    requires parent in models.entries && Valid(models.entries[parent].fields)
    ensures var r := CrossRelation(models, parent, child, childField);
            (r.Some? && r.value.kind == OneOne) <==> HasKeys(childField) && HasBackRef(models, parent, child, false)
    ensures var r := CrossRelation(models, parent, child, childField);
            (r.Some? && r.value.kind == OneMany) <==>
              HasKeys(childField) && !HasBackRef(models, parent, child, false) && HasBackRef(models, parent, child, true)
    ensures var r := CrossRelation(models, parent, child, childField);
            (r.Some? && r.value.kind == ManyManyImplicit) <==>
              !(HasKeys(childField) && HasBackRef(models, parent, child, false)) &&
              !(HasKeys(childField) && HasBackRef(models, parent, child, true)) &&
              childField.iterable && HasBackRef(models, parent, child, true)
  {
    FindBackRefFirst(ParentFields(models, parent), child, false);
    FindBackRefFirst(ParentFields(models, parent), child, true);
  }

  /**
   * The ends of a cross relation: the keys the child field names for one-one
   * and one-many, and for implicit many-many the first list field of the
   * parent facing the child field.
   */
  lemma CrossRelationEnds(models: OMap<ModelData>, parent: string, child: string, childField: Field)
    requires parent in models.entries && Valid(models.entries[parent].fields)
    ensures var r := CrossRelation(models, parent, child, childField);
            r.Some? && r.value.kind != ManyManyImplicit ==>
              HasKeys(childField) &&
              r.value.from == Endpoint(parent, childField.relation.value.references.value) &&
              r.value.to == Endpoint(child, childField.relation.value.foreignKey.value) &&
              r.value.name == childField.relation.value.name &&
              r.value.id == GenerateRelId((parent, child), (r.value.to.modelField, r.value.from.modelField))
    ensures var r := CrossRelation(models, parent, child, childField);
            var fs := ParentFields(models, parent);
            r.Some? && r.value.kind == ManyManyImplicit ==>
              r.value.to == Endpoint(child, childField.name) &&
              r.value.name == Some(if childField.relation.Some? && childField.relation.value.name.Some?
                                   then childField.relation.value.name.value else "") &&
              exists i :: 0 <= i < |fs| && IsBackRef(fs[i], child, true) &&
                          (forall j :: 0 <= j < i ==> !IsBackRef(fs[j], child, true)) &&
                          r.value.from == Endpoint(parent, fs[i].name) &&
                          r.value.id == GenerateRelId((parent, child), (childField.name, fs[i].name))
  {
    FindBackRefFirst(ParentFields(models, parent), child, true);
  }

  // ---------------------------------------------------------------------------
  // The pass over all fields

  /**
   * What looking at one field of `model` yields: a failure, nothing, or the
   * relation offered to the list.
   */
  function Visit(models: OMap<ModelData>, model: ModelData, field: Field): (r: Result<Option<Relation>>)
    requires WellFormed(models) && Valid(model.fields)
    ensures r.Err? ==> r.fault == InvalidSchema && field.dType == model.name
  {
    if field.dType == model.name then
      if field.relation.None? || !Truthy(field.relation.value.name) then Err(InvalidSchema)
      else
        match HandleSelfRelations(model, field)
        case Err(f) => Err(f)
        case Ok(rel) => Ok(Some(rel))
    else if field.dType !in models.entries then Ok(None)
    else Ok(CrossRelation(models, field.dType, model.name, field))
  }

  /** A field typed by neither its own model nor any model contributes nothing. */
  lemma UnknownTypeIgnored(models: OMap<ModelData>, model: ModelData, field: Field)
    requires WellFormed(models) && Valid(model.fields)
    requires field.dType != model.name && field.dType !in models.entries
    ensures Visit(models, model, field) == Ok(None)
  {
  }

  /** A self-typed field without a relation name makes the whole pass fail. */
  lemma UnnamedSelfFieldFails(models: OMap<ModelData>, model: ModelData, field: Field)
    requires WellFormed(models) && Valid(model.fields)
    requires field.dType == model.name
    requires field.relation.None? || !Truthy(field.relation.value.name)
    ensures Visit(models, model, field) == Err(InvalidSchema)
  {
  }

  /** What looking at each of the fields `fs` of `model` yields, in order. */
  function Outcomes(models: OMap<ModelData>, model: ModelData, fs: seq<Field>): (os: seq<Result<Option<Relation>>>)
    requires WellFormed(models) && Valid(model.fields)
    ensures |os| == |fs|
  {
    seq(|fs|, j requires 0 <= j < |fs| => Visit(models, model, fs[j]))
  }

  /** The relations the fields of `model` offer, in order, or the first failure. */
  function ModelResult(models: OMap<ModelData>, model: ModelData): Result<seq<Relation>>
    requires WellFormed(models) && Valid(model.fields)
  {
    Collect(Outcomes(models, model, Values(model.fields)))
  }

  /** Every model of `ms` can list its fields. */
  ghost predicate Listable(ms: seq<ModelData>) {
    forall i :: 0 <= i < |ms| ==> Valid(ms[i].fields)
  }

  /** What the fields of each of the models `ms` offer. */
  function ModelResults(models: OMap<ModelData>, ms: seq<ModelData>): (rs: seq<Result<seq<Relation>>>)
    requires WellFormed(models) && Listable(ms)
    ensures |rs| == |ms|
  {
    seq(|ms|, i requires 0 <= i < |ms| => ModelResult(models, ms[i]))
  }

  /** The models of the dictionary can all list their fields. */
  lemma ModelsListable(models: OMap<ModelData>)
    requires WellFormed(models)
    ensures Listable(Values(models))
  {
  }

  /**
   * What `getRelations` returns: every relation offered, in visiting order,
   * keeping the first of each id; or the failure of the first field that fails.
   */
  function GetRelationsSpec(models: OMap<ModelData>): (r: Result<seq<Relation>>)
    requires WellFormed(models)
  {
    ModelsListable(models);
    match Concat(ModelResults(models, Values(models)))
    case Err(f) => Err(f)
    case Ok(cs) => Ok(KeepFirst(cs, RelId))
  }

  /** Offering a possible relation to the list, as `handleRelations` and the self branch do. */
  function Offer(xs: seq<Relation>, o: Option<Relation>): seq<Relation> {
    if o.Some? then AddIfNew(xs, o.value, RelId) else xs
  }

  /** Looking at field `j` of model `i`, in the order `getRelations` visits them, yields `o`. */
  ghost predicate VisitYields(models: OMap<ModelData>, i: int, j: int, o: Result<Option<Relation>>)
    requires WellFormed(models)
  {
    ModelsListable(models);
    var ms := Values(models);
    0 <= i < |ms| && 0 <= j < |Values(ms[i].fields)| && Outcomes(models, ms[i], Values(ms[i].fields))[j] == o
  }

  /** A field whose look throws makes `getRelations` throw. */
  lemma GetRelationsFailsIf(models: OMap<ModelData>, i: int, j: int)
    requires WellFormed(models) && VisitYields(models, i, j, Err(InvalidSchema))
    ensures GetRelationsSpec(models) == Err(InvalidSchema)
  {
    ModelsListable(models);
    var ms := Values(models);
    var rs := ModelResults(models, ms);
    var os := Outcomes(models, ms[i], Values(ms[i].fields));
    CollectErr(os);
    assert rs[i].Err?;
    ConcatErr(rs);
    var k :| 0 <= k < |rs| && rs[k] == Err(Concat(rs).fault);
    var os' := Outcomes(models, ms[k], Values(ms[k].fields));
    CollectErr(os');
  }

  /** `getRelations` throws only when looking at some field throws. */
  lemma GetRelationsFailsOnlyIf(models: OMap<ModelData>)
    requires WellFormed(models) && GetRelationsSpec(models).Err?
    ensures exists i, j :: VisitYields(models, i, j, Err(InvalidSchema))
  {
    ModelsListable(models);
    var ms := Values(models);
    var rs := ModelResults(models, ms);
    ConcatErr(rs);
    var i :| 0 <= i < |rs| && rs[i].Err?;
    var os := Outcomes(models, ms[i], Values(ms[i].fields));
    CollectErr(os);
    var j :| 0 <= j < |os| && os[j].Err?;
    assert VisitYields(models, i, j, Err(InvalidSchema));
  }

  /** Every relation `getRelations` returns is one that looking at some field yields. */
  lemma GetRelationsSound(models: OMap<ModelData>, x: Relation)
    requires WellFormed(models) && GetRelationsSpec(models).Ok?
    requires x in GetRelationsSpec(models).value
    ensures exists i, j :: VisitYields(models, i, j, Ok(Some(x)))
  {
    ModelsListable(models);
    var ms := Values(models);
    var rs := ModelResults(models, ms);
    var cs := Concat(rs).value;
    AddAllFrom([], cs, RelId);
    ConcatMembers(rs, x);
    var i :| 0 <= i < |rs| && x in rs[i].value;
    var os := Outcomes(models, ms[i], Values(ms[i].fields));
    CollectMembers(os, x);
    var j :| 0 <= j < |os| && os[j] == Ok(Some(x));
    assert VisitYields(models, i, j, Ok(Some(x)));
  }

  /**
   * Every relation looking at some field yields has its id among those
   * `getRelations` returns: it is kept, or an earlier one with its id is.
   */
  lemma GetRelationsComplete(models: OMap<ModelData>, x: Relation, i: int, j: int)
    requires WellFormed(models) && GetRelationsSpec(models).Ok?
    requires VisitYields(models, i, j, Ok(Some(x)))
    ensures x.id in IdSet(GetRelationsSpec(models).value, RelId)
  {
    ModelsListable(models);
    var ms := Values(models);
    var rs := ModelResults(models, ms);
    var cs := Concat(rs).value;
    var os := Outcomes(models, ms[i], Values(ms[i].fields));
    ConcatMembers(rs, x);
    assert rs[i] == Collect(os);
    CollectMembers(os, x);
    var k :| 0 <= k < |cs| && cs[k] == x;
    assert x.id in IdSet(cs, RelId);
    AddAllIds([], cs, RelId);
    assert IdSet([], RelId) == {};
  }

  /**
   * `handleRelations`: offers the relation the classifiers find to the list,
   * adding its id to `ids` when it is kept.
   */
  method HandleRelations(models: OMap<ModelData>, parentModel: string, childModel: string, childField: Field,
                         relations0: seq<Relation>, ids0: set<string>)
    returns (relations: seq<Relation>, ids: set<string>)
    requires parentModel in models.entries && Valid(models.entries[parentModel].fields)
    requires ids0 == IdSet(relations0, RelId)
    ensures relations == Offer(relations0, CrossRelation(models, parentModel, childModel, childField))
    ensures ids == IdSet(relations, RelId)
  {
    relations, ids := relations0, ids0;
    var oneOne := HandleOneOne(models, parentModel, childModel, childField);
    if oneOne.Some? {
      if oneOne.value.id in ids {
        return;
      }
      AddIfNewIds(relations, oneOne.value, RelId);
      relations := relations + [oneOne.value];
      ids := ids + {oneOne.value.id};
      return;
    }
    var oneMany := HandleOneMany(models, parentModel, childModel, childField);
    if oneMany.Some? {
      if oneMany.value.id in ids {
        return;
      }
      AddIfNewIds(relations, oneMany.value, RelId);
      relations := relations + [oneMany.value];
      ids := ids + {oneMany.value.id};
      return;
    }
    var manyManyImplicit := HandleManyManyImplicit(models, parentModel, childModel, childField);
    if manyManyImplicit.Some? {
      if manyManyImplicit.value.id in ids {
        return;
      }
      AddIfNewIds(relations, manyManyImplicit.value, RelId);
      relations := relations + [manyManyImplicit.value];
      ids := ids + {manyManyImplicit.value.id};
      return;
    }
  }

  /**
   * One turn of the inner `forEach` of `getRelations`: the self branch, the
   * unknown-type skip, or `handleRelations`.
   */
  method VisitField(models: OMap<ModelData>, model: ModelData, field: Field, relations0: seq<Relation>, ids0: set<string>,
                    ghost outcome: Result<Option<Relation>>)
    returns (r: Result<(seq<Relation>, set<string>)>)
    requires WellFormed(models) && Valid(model.fields)
    requires ids0 == IdSet(relations0, RelId)
    requires outcome == Visit(models, model, field)
    ensures outcome.Err? <==> r.Err?
    ensures r.Err? ==> r.fault == InvalidSchema
    ensures r.Ok? ==> r.value.0 == Offer(relations0, outcome.value)
    ensures r.Ok? ==> r.value.1 == IdSet(r.value.0, RelId)
  {
    var relations, ids := relations0, ids0;
    var parentModel := field.dType;
    if parentModel == model.name {
      var relName := if field.relation.Some? then field.relation.value.name else None;
      if !Truthy(relName) {
        return Err(InvalidSchema);
      }
      var relation := HandleSelfRelations(model, field);
      if relation.Err? {
        return Err(relation.fault);
      }
      if relation.value.id in ids {
        return Ok((relations, ids));
      }
      AddIfNewIds(relations, relation.value, RelId);
      relations := relations + [relation.value];
      ids := ids + {relation.value.id};
      return Ok((relations, ids));
    }
    if parentModel !in models.entries {
      return Ok((relations, ids));
    }
    relations, ids := HandleRelations(models, parentModel, model.name, field, relations, ids);
    return Ok((relations, ids));
  }

  /** One more outcome that is not a failure extends the collected list and the offered list together. */
  lemma CollectStep(relations0: seq<Relation>, os: seq<Result<Option<Relation>>>, j: nat, ds: seq<Relation>)
    requires j < |os| && Collect(os[..j]) == Ok(ds) && os[j].Ok?
    ensures var next := if os[j].value.Some? then ds + [os[j].value.value] else ds;
      Collect(os[..j + 1]) == Ok(next) && AddAll(relations0, next, RelId) == Offer(AddAll(relations0, ds, RelId), os[j].value)
  {
    CollectSnoc(os, j);
    if os[j].value.Some? {
      assert (ds + [os[j].value.value])[..|ds|] == ds;
    }
  }

  /**
   * The outer `forEach` callback of `getRelations`: looks at every field of
   * `model` in turn, offering what each yields to the list.
   */
  method VisitModel(models: OMap<ModelData>, model: ModelData, relations0: seq<Relation>, ids0: set<string>)
    returns (r: Result<(seq<Relation>, set<string>)>)
    requires WellFormed(models) && Valid(model.fields)
    requires ids0 == IdSet(relations0, RelId)
    ensures r.Err? <==> ModelResult(models, model).Err?
    ensures r.Err? ==> r.fault == ModelResult(models, model).fault
    ensures r.Ok? ==> r.value.0 == AddAll(relations0, ModelResult(models, model).value, RelId)
    ensures r.Ok? ==> r.value.1 == IdSet(r.value.0, RelId)
  {
    var relations, ids := relations0, ids0;
    var fields := Values(model.fields);
    ghost var outcomes := Outcomes(models, model, fields);
    ghost var ds: seq<Relation> := [];
    assert outcomes[..0] == [];
    var j := 0;
    while j < |fields|
      invariant 0 <= j <= |fields|
      invariant Collect(outcomes[..j]) == Ok(ds)
      invariant relations == AddAll(relations0, ds, RelId)
      invariant ids == IdSet(relations, RelId)
    {
      var next := VisitField(models, model, fields[j], relations, ids, outcomes[j]);
      if next.Err? {
        CollectSnoc(outcomes, j);
        CollectSticky(outcomes, j + 1);
        return Err(next.fault);
      }
      CollectStep(relations0, outcomes, j, ds);
      ds := if outcomes[j].value.Some? then ds + [outcomes[j].value.value] else ds;
      relations, ids := next.value.0, next.value.1;
      j := j + 1;
    }
    assert outcomes[..|fields|] == outcomes;
    return Ok((relations, ids));
  }

  /**
   * `getRelations`: the nested walk over every field of every model. The
   * list holds the first relation of each id offered so far, `ids` is
   * exactly the set of its ids, and no id occurs twice.
   */
  method GetRelations(models: OMap<ModelData>) returns (r: Result<seq<Relation>>)
    requires WellFormed(models)
    ensures r == GetRelationsSpec(models)
    ensures r.Ok? ==> DistinctIds(r.value, RelId)
  {
    var relations: seq<Relation> := [];
    var ids: set<string> := {};
    var modelIterable := Values(models);
    ModelsListable(models);
    ghost var results := ModelResults(models, modelIterable);
    ghost var cs: seq<Relation> := [];
    assert results[..0] == [];
    var i := 0;
    while i < |modelIterable|
      invariant 0 <= i <= |modelIterable|
      invariant Concat(results[..i]) == Ok(cs)
      invariant relations == KeepFirst(cs, RelId)
      invariant ids == IdSet(relations, RelId)
    {
      ConcatSnoc(results, i);
      var next := VisitModel(models, modelIterable[i], relations, ids);
      if next.Err? {
        ConcatSticky(results, i + 1);
        assert results[..|results|] == results;
        return Err(next.fault);
      }
      AddAllAppend([], cs, results[i].value, RelId);
      cs := cs + results[i].value;
      relations, ids := next.value.0, next.value.1;
      i := i + 1;
    }
    assert results[..|results|] == results;
    AddAllIds([], cs, RelId);
    return Ok(relations);
  }
}
