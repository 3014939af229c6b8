/**
 * The relation half of `parser` (src/lib/parser.ts): every relation field of
 * every parsed model is paired with the fields that can stand at the other
 * end, each pair is classified, and a relation is pushed only when no
 * relation with the same id was pushed before.
 */
module SchemaRelations {
  import opened Results
  import opened Text
  import opened OrderedMap
  import opened SchemaParser
  import opened Dedup
  import opened Lists
  import opened Offers
  import RelationInference

  /** The `type` of a relation, as the second parser writes it. */
  datatype Kind =
    | OneOne                // "o-o"
    | OneMany               // "o-m"
    | ManyManyImplicit      // "m-m-i"
    | SelfOneOne            // "self-o-o"
    | SelfOneMany           // "self-o-m"
    | SelfManyManyImplicit  // "self-m-m-i"

  /** One end of a relation: a model and a field of it. */
  datatype Endpoint = Endpoint(modelName: string, modelField: string)

  /** `Relations`: one inferred relation; `name` is `None` for `null` and `undefined` alike. */
  datatype Relation = Relation(
    kind: Kind,
    between: (string, string),
    name: Option<string>,
    from: Endpoint,
    to: Endpoint,
    id: string)

  /** The id by which relations are told apart. */
  function RelId(r: Relation): string {
    r.id
  }

  /** `generateSelfRelId`: the model name, then the two field names sorted, joined by `-`. */
  function GenerateSelfRelId(model: string, fields: (string, string)): (id: string)
    ensures exists fs :: SortedPair(fs, fields.0, fields.1) && id == model + "-" + fs.0 + "-" + fs.1
  {
    var fs := Sort2(fields.0, fields.1);
    model + "-" + fs.0 + "-" + fs.1
  }

  /** The self id does not depend on which field comes first. */
  lemma GenerateSelfRelIdSymmetric(model: string, a: string, b: string)
    ensures GenerateSelfRelId(model, (a, b)) == GenerateSelfRelId(model, (b, a))
  {
    Sort2Symmetric(a, b);
  }

  // ---------------------------------------------------------------------------
  // Self relations

  /** `_.name !== field.name && _.relation.name === relName`: another field with the same relation name. */
  predicate SelfPartner(field: FieldDefinition, relField: FieldDefinition) {
    relField.name != field.name && relField.relation.name == field.relation.name
  }

  /** The self relation between `field` and its partner `relField` in the model named `m`. */
  function SelfRelation(m: string, field: FieldDefinition, relField: FieldDefinition): (r: Relation)
    ensures r.between == (m, m) && r.name == field.relation.name
    ensures r.id == GenerateSelfRelId(m, (relField.name, field.name))
  {
    var id := GenerateSelfRelId(m, (relField.name, field.name));
    if !field.iterable && !relField.iterable then
      Relation(SelfOneOne, (m, m), field.relation.name, Endpoint(m, relField.name), Endpoint(m, field.name), id)
    else if field.iterable != relField.iterable then
      Relation(SelfOneMany, (m, m), field.relation.name, Endpoint(m, field.name), Endpoint(m, relField.name), id)
    else
      Relation(SelfManyManyImplicit, (m, m), field.relation.name, Endpoint(m, field.name), Endpoint(m, relField.name), id)
  }

  /**
   * Self relations: two non-lists are one-one, one list and one non-list
   * one-many, two lists many-many; the one-one relation points from the
   * partner to the field, the others from the field to the partner.
   */
  lemma SelfKinds(m: string, field: FieldDefinition, relField: FieldDefinition)
    ensures SelfRelation(m, field, relField).kind == SelfOneOne <==> !field.iterable && !relField.iterable
    ensures SelfRelation(m, field, relField).kind == SelfOneMany <==> field.iterable != relField.iterable
    ensures SelfRelation(m, field, relField).kind == SelfManyManyImplicit <==> field.iterable && relField.iterable
    ensures var r := SelfRelation(m, field, relField);
      r.kind == SelfOneOne ==> r.from == Endpoint(m, relField.name) && r.to == Endpoint(m, field.name)
    ensures var r := SelfRelation(m, field, relField);
      r.kind != SelfOneOne ==> r.from == Endpoint(m, field.name) && r.to == Endpoint(m, relField.name)
  {
  }

  /**
   * A pair of self-related fields is found from both sides, and both finds
   * carry the same id and kind, so the second one is never pushed.
   */
  lemma SelfRelationMirrored(m: string, field: FieldDefinition, relField: FieldDefinition)
    ensures SelfPartner(field, relField) <==> SelfPartner(relField, field)
    ensures SelfRelation(m, field, relField).id == SelfRelation(m, relField, field).id
    ensures SelfRelation(m, field, relField).kind == SelfRelation(m, relField, field).kind
  {
    GenerateSelfRelIdSymmetric(m, field.name, relField.name);
  }

  /** What the self-relation loop makes of `relField`. */
  function SelfOffer(m: string, field: FieldDefinition, relField: FieldDefinition): (o: Option<Relation>)
    ensures o.Some? <==> SelfPartner(field, relField)
  {
    if SelfPartner(field, relField) then Some(SelfRelation(m, field, relField)) else None
  }

  /** What the self-relation loop makes of each field of the model. */
  function SelfOffers(m: string, field: FieldDefinition, fs: seq<FieldDefinition>): (os: seq<Option<Relation>>)
    ensures |os| == |fs|
  {
    seq(|fs|, j requires 0 <= j < |fs| => SelfOffer(m, field, fs[j]))
  }

  // ---------------------------------------------------------------------------
  // Cross relations

  /** `relName ? relField.relation.name === relName : !relField.relation.name` */
  predicate NameAgrees(relName: Option<string>, relField: FieldDefinition) {
    if Truthy(relName) then relField.relation.name == relName else !Truthy(relField.relation.name)
  }

  /** `field.relation.fields.length && field.relation.references.length`: the field holds the foreign key. */
  predicate Keyed(field: FieldDefinition) {
    |field.relation.fields| > 0 && |field.relation.references| > 0
  }

  /**
   * The kind of a cross relation: with the keys on this side it is one-many
   * when the other side is a list and one-one otherwise; without them, two
   * non-lists are one-one, a list here against a non-list one-many, two lists
   * many-many, and a list only on the other side nothing.
   */
  function CrossKind(keyed: bool, fieldIterable: bool, relFieldIterable: bool): (k: Option<Kind>)
    ensures k.None? <==> !keyed && relFieldIterable && !fieldIterable
    ensures k == Some(ManyManyImplicit) <==> !keyed && fieldIterable && relFieldIterable
    ensures k == Some(OneMany) <==> (if keyed then relFieldIterable else fieldIterable && !relFieldIterable)
    ensures k == Some(OneOne) <==> !relFieldIterable && (keyed || !fieldIterable)
  {
    if keyed then
      if relFieldIterable then Some(OneMany) else Some(OneOne)
    else if !relFieldIterable && !fieldIterable then Some(OneOne)
    else if !relFieldIterable && fieldIterable then Some(OneMany)
    else if relFieldIterable && fieldIterable then Some(ManyManyImplicit)
    else None
  }

  /** `relName === relField.relation.name ? relName : null` */
  function CrossName(relName: Option<string>, relField: FieldDefinition): Option<string> {
    if relName == relField.relation.name then relName else None
  }

  /**
   * What the cross-relation loop makes of `relField`, a field of the model
   * `relModel` that `field` of `model` points to.
   */
  function CrossOffer(model: string, relModel: string, field: FieldDefinition, relField: FieldDefinition): (o: Option<Relation>)
    ensures o.Some? <==> relField.dType == model && NameAgrees(field.relation.name, relField) &&
                         CrossKind(Keyed(field), field.iterable, relField.iterable).Some?
    ensures o.Some? ==> o.value.kind == CrossKind(Keyed(field), field.iterable, relField.iterable).value
    ensures o.Some? ==> o.value.name == CrossName(field.relation.name, relField)
    ensures o.Some? ==> o.value.between == (model, relModel)
    ensures o.Some? ==> o.value.from == Endpoint(relModel, relField.name) && o.value.to == Endpoint(model, field.name)
    ensures o.Some? ==> o.value.id == RelationInference.GenerateRelId((relModel, model), (field.name, relField.name))
  {
    if relField.dType != model || !NameAgrees(field.relation.name, relField) then None
    else
      match CrossKind(Keyed(field), field.iterable, relField.iterable)
      case None => None
      case Some(kind) =>
        Some(Relation(kind, (model, relModel), CrossName(field.relation.name, relField),
                      Endpoint(relModel, relField.name), Endpoint(model, field.name),
                      RelationInference.GenerateRelId((relModel, model), (field.name, relField.name))))
  }

  /** What the cross-relation loop makes of each field of the related model. */
  function CrossOffers(model: string, relModel: string, field: FieldDefinition, fs: seq<FieldDefinition>)
    : (os: seq<Option<Relation>>)
    ensures |os| == |fs|
  {
    seq(|fs|, j requires 0 <= j < |fs| => CrossOffer(model, relModel, field, fs[j]))
  }

  /**
   * A cross relation found from both of its fields carries the same id both
   * times, so only the first find is pushed.
   */
  lemma CrossRelationMirrored(a: string, b: string, f: FieldDefinition, g: FieldDefinition)
    requires CrossOffer(a, b, f, g).Some? && CrossOffer(b, a, g, f).Some?
    ensures CrossOffer(a, b, f, g).value.id == CrossOffer(b, a, g, f).value.id
  {
    RelationInference.GenerateRelIdSymmetric(b, a, f.name, g.name);
    RelationInference.GenerateRelIdSymmetric(a, b, f.name, g.name);
  }

  /**
   * A relation name on the field is matched by the other end: the relation
   * carries it. Without one, the other end has none either.
   */
  lemma CrossRelationNamed(model: string, relModel: string, field: FieldDefinition, relField: FieldDefinition)
    requires CrossOffer(model, relModel, field, relField).Some?
    ensures Truthy(field.relation.name) ==>
      relField.relation.name == field.relation.name && CrossOffer(model, relModel, field, relField).value.name == field.relation.name
    ensures !Truthy(field.relation.name) ==> !Truthy(CrossOffer(model, relModel, field, relField).value.name)
  {
  }

  // ---------------------------------------------------------------------------
  // The pass

  /** Every model of `ms` can list its fields. */
  ghost predicate Listable(ms: seq<ModelAst>) {
    forall i :: 0 <= i < |ms| ==> Valid(ms[i].fields)
  }

  /** The models of a well-formed dictionary can list their fields. */
  lemma ModelsListable(models: OMap<ModelAst>)
    requires WellFormed(models)
    ensures Listable(Values(models))
  {
  }

  /**
   * What the `forEach` callback makes of one field of `model`, pairing by
   * pairing: nothing for a field without `@relation` or whose type names no
   * model, the self-relation loop when the type is the model itself, and the
   * cross-relation loop otherwise.
   */
  function FieldOffers(models: OMap<ModelAst>, model: ModelAst, field: FieldDefinition): seq<Option<Relation>>
    requires WellFormed(models) && Valid(model.fields)
  {
    if !field.isRelation || field.dType !in models.entries then []
    else
      var relModel := models.entries[field.dType];
      if relModel.name == model.name then SelfOffers(model.name, field, Values(model.fields))
      else CrossOffers(model.name, relModel.name, field, Values(relModel.fields))
  }

  /** The relations the callback offers for one field, in order. */
  function FieldCandidates(models: OMap<ModelAst>, model: ModelAst, field: FieldDefinition): seq<Relation>
    requires WellFormed(models) && Valid(model.fields)
  {
    Somes(FieldOffers(models, model, field))
  }

  /** A field without `@relation`, or whose type names no model, offers nothing. */
  lemma NonRelationIgnored(models: OMap<ModelAst>, model: ModelAst, field: FieldDefinition)
    requires WellFormed(models) && Valid(model.fields)
    requires !field.isRelation || field.dType !in models.entries
    ensures FieldCandidates(models, model, field) == []
  {
  }

  /** The candidate lists of each field of `fs`. */
  function FieldCandidateLists(models: OMap<ModelAst>, model: ModelAst, fs: seq<FieldDefinition>): (css: seq<seq<Relation>>)
    requires WellFormed(models) && Valid(model.fields)
    ensures |css| == |fs|
  {
    seq(|fs|, j requires 0 <= j < |fs| => FieldCandidates(models, model, fs[j]))
  }

  /** The relations offered for the fields of one model, in field order. */
  function ModelCandidates(models: OMap<ModelAst>, model: ModelAst): seq<Relation>
    requires WellFormed(models) && Valid(model.fields)
  {
    Flatten(FieldCandidateLists(models, model, Values(model.fields)))
  }

  /** The candidate lists of each model of `ms`. */
  function ModelCandidateLists(models: OMap<ModelAst>, ms: seq<ModelAst>): (css: seq<seq<Relation>>)
    requires WellFormed(models) && Listable(ms)
    ensures |css| == |ms|
  {
    seq(|ms|, i requires 0 <= i < |ms| => ModelCandidates(models, ms[i]))
  }

  /** Every relation offered by the pass, in visiting order. */
  function Candidates(models: OMap<ModelAst>): seq<Relation>
    requires WellFormed(models)
  {
    ModelsListable(models);
    Flatten(ModelCandidateLists(models, Values(models)))
  }

  /** The `relations` of the parser's result: the candidates, each kept only when its id is new. */
  function RelationsSpec(models: OMap<ModelAst>): seq<Relation>
    requires WellFormed(models)
  {
    KeepFirst(Candidates(models), RelId)
  }

  /** `if (!relIds.has(id)) { relations.push(...); relIds.add(id); }` */
  method Push(r: Relation, relations0: seq<Relation>, ids0: set<string>) returns (relations: seq<Relation>, ids: set<string>)
    requires ids0 == IdSet(relations0, RelId)
    ensures relations == AddIfNew(relations0, r, RelId)
    ensures ids == IdSet(relations, RelId)
  {
    relations, ids := relations0, ids0;
    AddIfNewIds(relations, r, RelId);
    if r.id !in ids {
      relations := relations + [r];
      ids := ids + {r.id};
    }
  }

  /** The self-relation loop of the callback, for a field typed by its own model. */
  method SelfRelations(model: ModelAst, field: FieldDefinition, relations0: seq<Relation>, ids0: set<string>)
    returns (relations: seq<Relation>, ids: set<string>)
    requires Valid(model.fields) && ids0 == IdSet(relations0, RelId)
    ensures relations == AddAll(relations0, Somes(SelfOffers(model.name, field, Values(model.fields))), RelId)
    ensures ids == IdSet(relations, RelId)
  {
    relations, ids := relations0, ids0;
    var relName := field.relation.name;
    var fs := Values(model.fields);
    ghost var offers := SelfOffers(model.name, field, fs);
    assert offers[..0] == [];
    for j := 0 to |fs|
      invariant relations == AddAll(relations0, Somes(offers[..j]), RelId)
      invariant ids == IdSet(relations, RelId)
    {
      SomesSnoc(offers, j);
      ghost var kept := Somes(offers[..j]);
      var relField := fs[j];
      assert offers[j] == SelfOffer(model.name, field, relField);
      if relField.name != field.name && relField.relation.name == relName {
        var id := GenerateSelfRelId(model.name, (relField.name, field.name));
        var r: Relation;
        if !field.iterable && !relField.iterable {
          r := Relation(SelfOneOne, (model.name, model.name), relName,
                        Endpoint(model.name, relField.name), Endpoint(model.name, field.name), id);
        } else if (!field.iterable && relField.iterable) || (field.iterable && !relField.iterable) {
          r := Relation(SelfOneMany, (model.name, model.name), relName,
                        Endpoint(model.name, field.name), Endpoint(model.name, relField.name), id);
        } else {
          r := Relation(SelfManyManyImplicit, (model.name, model.name), relName,
                        Endpoint(model.name, field.name), Endpoint(model.name, relField.name), id);
        }
        assert r == SelfRelation(model.name, field, relField);
        assert (kept + [r])[..|kept|] == kept;
        relations, ids := Push(r, relations, ids);
      }
    }
    assert offers[..|fs|] == offers;
  }

  /** One turn of the cross-relation loop: `relField` of `relModel` against `field` of `model`. */
  method CrossStep(model: string, relModel: string, field: FieldDefinition, relField: FieldDefinition,
                   relations0: seq<Relation>, ids0: set<string>)
    returns (relations: seq<Relation>, ids: set<string>)
    requires ids0 == IdSet(relations0, RelId)
    ensures relations == match CrossOffer(model, relModel, field, relField)
                         case None => relations0
                         case Some(r) => AddIfNew(relations0, r, RelId)
    ensures ids == IdSet(relations, RelId)
  {
    relations, ids := relations0, ids0;
    var relName := field.relation.name;
    if relField.dType != model {
      return;
    }
    var id := RelationInference.GenerateRelId((relModel, model), (field.name, relField.name));
    var checkRelByName := if Truthy(relName) then relField.relation.name == relName else !Truthy(relField.relation.name);
    if !checkRelByName {
      return;
    }
    var keyed := |field.relation.fields| > 0 && |field.relation.references| > 0;
    var kind := CrossKind(keyed, field.iterable, relField.iterable);
    if kind.Some? {
      var r := Relation(kind.value, (model, relModel), if relName == relField.relation.name then relName else None,
                        Endpoint(relModel, relField.name), Endpoint(model, field.name), id);
      relations, ids := Push(r, relations, ids);
    }
  }

  /** The cross-relation loop of the callback, over the fields of the related model. */
  method CrossRelations(model: ModelAst, relModel: ModelAst, field: FieldDefinition,
                        relations0: seq<Relation>, ids0: set<string>)
    returns (relations: seq<Relation>, ids: set<string>)
    requires Valid(relModel.fields) && ids0 == IdSet(relations0, RelId)
    ensures relations == AddAll(relations0, Somes(CrossOffers(model.name, relModel.name, field, Values(relModel.fields))), RelId)
    ensures ids == IdSet(relations, RelId)
  {
    relations, ids := relations0, ids0;
    var fs := Values(relModel.fields);
    ghost var offers := CrossOffers(model.name, relModel.name, field, fs);
    assert offers[..0] == [];
    for j := 0 to |fs|
      invariant relations == AddAll(relations0, Somes(offers[..j]), RelId)
      invariant ids == IdSet(relations, RelId)
    {
      SomesSnoc(offers, j);
      ghost var kept := Somes(offers[..j]);
      assert offers[j] == CrossOffer(model.name, relModel.name, field, fs[j]);
      if offers[j].Some? {
        assert (kept + [offers[j].value])[..|kept|] == kept;
      }
      relations, ids := CrossStep(model.name, relModel.name, field, fs[j], relations, ids);
    }
    assert offers[..|fs|] == offers;
  }

  /** The `forEach` callback on one field of `model`. */
  method VisitField(models: OMap<ModelAst>, model: ModelAst, field: FieldDefinition,
                    relations0: seq<Relation>, ids0: set<string>)
    returns (relations: seq<Relation>, ids: set<string>)
    requires WellFormed(models) && Valid(model.fields) && ids0 == IdSet(relations0, RelId)
    ensures relations == AddAll(relations0, FieldCandidates(models, model, field), RelId)
    ensures ids == IdSet(relations, RelId)
  {
    relations, ids := relations0, ids0;
    if !field.isRelation {
      return;
    }
    if field.dType !in models.entries {
      return;
    }
    var relModel := models.entries[field.dType];
    if relModel.name == model.name {
      relations, ids := SelfRelations(model, field, relations, ids);
      return;
    }
    relations, ids := CrossRelations(model, relModel, field, relations, ids);
  }

  /** The inner `forEach` over the fields of one model. */
  method VisitModel(models: OMap<ModelAst>, model: ModelAst, relations0: seq<Relation>, ids0: set<string>)
    returns (relations: seq<Relation>, ids: set<string>)
    requires WellFormed(models) && Valid(model.fields) && ids0 == IdSet(relations0, RelId)
    ensures relations == AddAll(relations0, ModelCandidates(models, model), RelId)
    ensures ids == IdSet(relations, RelId)
  {
    relations, ids := relations0, ids0;
    var fs := Values(model.fields);
    ghost var lists := FieldCandidateLists(models, model, fs);
    assert lists[..0] == [];
    for j := 0 to |fs|
      invariant relations == AddAll(relations0, Flatten(lists[..j]), RelId)
      invariant ids == IdSet(relations, RelId)
    {
      FlattenSnoc(lists, j);
      AddAllAppend(relations0, Flatten(lists[..j]), lists[j], RelId);
      relations, ids := VisitField(models, model, fs[j], relations, ids);
    }
    assert lists[..|fs|] == lists;
  }

  /** The relation pass of `parser`: the outer loop over the models. */
  method Relations(models: OMap<ModelAst>) returns (relations: seq<Relation>)
    requires WellFormed(models)
    ensures relations == RelationsSpec(models)
    ensures DistinctIds(relations, RelId)
  {
    relations := [];
    var relIds: set<string> := {};
    var ms := Values(models);
    ModelsListable(models);
    ghost var lists := ModelCandidateLists(models, ms);
    assert lists[..0] == [];
    for i := 0 to |ms|
      invariant relations == KeepFirst(Flatten(lists[..i]), RelId)
      invariant relIds == IdSet(relations, RelId)
    {
      FlattenSnoc(lists, i);
      AddAllAppend([], Flatten(lists[..i]), lists[i], RelId);
      relations, relIds := VisitModel(models, ms[i], relations, relIds);
    }
    assert lists[..|ms|] == lists;
    AddAllIds([], Flatten(lists), RelId);
  }

  /** Field `j` of model `i` offers `x`, in visiting order. */
  ghost predicate FieldOffersAt(models: OMap<ModelAst>, i: int, j: int, x: Relation)
    requires WellFormed(models)
  {
    ModelsListable(models);
    var ms := Values(models);
    0 <= i < |ms| && 0 <= j < |Values(ms[i].fields)| && x in FieldCandidates(models, ms[i], Values(ms[i].fields)[j])
  }

  /** Every relation of the result was offered for some field of some model. */
  lemma RelationsSound(models: OMap<ModelAst>, x: Relation)
    requires WellFormed(models) && x in RelationsSpec(models)
    ensures exists i, j :: FieldOffersAt(models, i, j, x)
  {
    var ms := Values(models);
    ModelsListable(models);
    var lists := ModelCandidateLists(models, ms);
    AddAllFrom([], Candidates(models), RelId);
    FlattenMembers(lists, x);
    var i :| 0 <= i < |lists| && x in lists[i];
    var fls := FieldCandidateLists(models, ms[i], Values(ms[i].fields));
    FlattenMembers(fls, x);
    var j :| 0 <= j < |fls| && x in fls[j];
    assert FieldOffersAt(models, i, j, x);
  }

  /** Every relation offered for some field has its id in the result: that relation, or an earlier one with its id. */
  lemma RelationsComplete(models: OMap<ModelAst>, i: int, j: int, x: Relation)
    requires WellFormed(models)
    requires FieldOffersAt(models, i, j, x)
    ensures x.id in IdSet(RelationsSpec(models), RelId)
  {
    var ms := Values(models);
    ModelsListable(models);
    var lists := ModelCandidateLists(models, ms);
    var fls := FieldCandidateLists(models, ms[i], Values(ms[i].fields));
    assert x in fls[j];
    FlattenMembers(fls, x);
    assert x in lists[i];
    FlattenMembers(lists, x);
    var cs := Candidates(models);
    assert x in cs;
    InIdSet(cs, x);
    AddAllIds([], cs, RelId);
    assert IdSet([], RelId) == {};
  }

  /** The id of an item of a list is an id of the list. */
  lemma InIdSet(cs: seq<Relation>, x: Relation)
    requires x in cs
    ensures x.id in IdSet(cs, RelId)
  {
    var k :| 0 <= k < |cs| && cs[k] == x;
    assert RelId(cs[k]) in IdSet(cs, RelId);
  }


  /** A field typed by its own model offers the self relation with every partner field of the model. */
  lemma SelfPairOffered(models: OMap<ModelAst>, k: string, f: string, g: string)
    requires WellFormed(models) && k in models.entries
    requires f in models.entries[k].fields.entries && g in models.entries[k].fields.entries
    requires var field := models.entries[k].fields.entries[f];
      field.isRelation && field.dType == k
    requires SelfPartner(models.entries[k].fields.entries[f], models.entries[k].fields.entries[g])
    ensures var model := models.entries[k]; var fields := model.fields.entries;
      SelfRelation(k, fields[f], fields[g]) in FieldCandidates(models, model, fields[f])
  {
    var model := models.entries[k];
    var fs := Values(model.fields);
    var field := model.fields.entries[f];
    var n :| 0 <= n < |model.fields.keys| && model.fields.keys[n] == g;
    var offers := SelfOffers(k, field, fs);
    assert offers[n] == Some(SelfRelation(k, field, fs[n]));
    assert FieldOffers(models, model, field) == offers;
    SomesMembers(offers, SelfRelation(k, field, fs[n]));
  }

  /**
   * A field typed by another model offers the cross relation with every
   * field of that model that the classifier accepts.
   */
  lemma CrossPairOffered(models: OMap<ModelAst>, k: string, f: string, k2: string, g: string)
    requires WellFormed(models) && k in models.entries && k2 in models.entries && k != k2
    requires f in models.entries[k].fields.entries && g in models.entries[k2].fields.entries
    requires var field := models.entries[k].fields.entries[f];
      field.isRelation && field.dType == k2
    requires CrossOffer(k, k2, models.entries[k].fields.entries[f], models.entries[k2].fields.entries[g]).Some?
    ensures var field := models.entries[k].fields.entries[f];
      CrossOffer(k, k2, field, models.entries[k2].fields.entries[g]).value
        in FieldCandidates(models, models.entries[k], field)
  {
    var model := models.entries[k];
    var relModel := models.entries[k2];
    var fs := Values(relModel.fields);
    var field := model.fields.entries[f];
    var n :| 0 <= n < |relModel.fields.keys| && relModel.fields.keys[n] == g;
    var offers := CrossOffers(k, k2, field, fs);
    assert offers[n] == CrossOffer(k, k2, field, fs[n]);
    assert FieldOffers(models, model, field) == offers;
    SomesMembers(offers, offers[n].value);
  }

  /** `SchemaAST` without `dbType` and `relationMode`: the models dictionary and the relations. */
  datatype SchemaAst = SchemaAst(models: OMap<ModelAst>, relations: seq<Relation>)

  /**
   * `parser`, from the extracted model blocks: every block parsed in order
   * (the first unreadable line throws), the dictionary built, then the
   * relation pass run over it.
   */
  method Parser(xs: seq<ExtractedModel>) returns (r: Result<SchemaAst>)
    ensures r.Err? <==> exists i :: 0 <= i < |xs| && ParseModelSpec(xs[i]).Err?
    ensures r.Err? ==> r.fault == TypeError
    ensures r.Ok? ==> ParseModels(xs).Ok? && r.value.models == ParseModels(xs).value
    ensures r.Ok? ==> WellFormed(r.value.models)
    ensures r.Ok? ==> r.value.relations == RelationsSpec(r.value.models) && DistinctIds(r.value.relations, RelId)
  {
    ghost var outcomes := ModelOutcomes(xs);
    var pairs: seq<(string, ModelAst)> := [];
    ParseModelsFails(xs);
    assert outcomes[..0] == [];
    for i := 0 to |xs|
      invariant Collect(outcomes[..i]) == Ok(pairs)
    {
      CollectSnoc(outcomes, i);
      assert outcomes[i] == ModelOutcome(xs[i]);
      var parsed := ParseModel(xs[i]);
      if parsed.Err? {
        CollectSticky(outcomes, i + 1);
        return Err(parsed.fault);
      }
      assert (pairs + [(xs[i].name, parsed.value)])[..|pairs|] == pairs;
      pairs := pairs + [(xs[i].name, parsed.value)];
    }
    assert outcomes[..|xs|] == outcomes;
    var models := FromEntries(pairs);
    ParseModelsWellFormed(xs);
    var relations := Relations(models);
    return Ok(SchemaAst(models, relations));
  }
}
