/**
 * The first-generation model parser (src/lib/getParsedModels.ts): every
 * `model Name { ... }` block becomes a `ModelData` record holding its fields
 * keyed by name, a derived primary key and the list of foreign keys met in
 * `@relation(fields: [...])` attributes.
 */
module ParsedModels {
  import opened Results
  import opened Text
  import opened Patterns
  import opened OrderedMap

  /** One extracted `model` block: its name and the text between the braces. */
  datatype RawModel = RawModel(name: string, content: string)

  /** The relation triple of a field; `None` is JavaScript's `null`. */
  datatype RelationInfo = RelationInfo(foreignKey: Option<string>, name: Option<string>, references: Option<string>)

  /** One field record as `parseModel` stores it. */
  datatype Field = Field(
    name: string,
    dType: string,
    isForeignKey: bool,
    isRelation: bool,
    relation: Option<RelationInfo>,
    isPrimaryKey: bool,
    iterable: bool,
    optional: bool)

  /** The record `parseModel` returns. */
  datatype ModelData = ModelData(fields: OMap<Field>, name: string, primaryKey: string, foreignKeys: seq<string>)

  /** What the line loop of `parseModel` has built so far. */
  datatype Progress = Progress(fields: OMap<Field>, primaryKey: string, foreignKeys: seq<string>)

  /** The declaration part of a field line: its name, its type token and its `@`-tokens. */
  datatype Decl = Decl(name: string, typ: string, tokens: seq<string>)

  // The regular expressions of `PrismaRegExp`.
  const CompositeId: seq<Pattern> := [Bracketed("@@id(", false, ")"), Bracketed("@@id(fields:", false, ")")]
  const IterableType: Pattern := Ending("[]")
  const OptionalType: Pattern := Ending("?")
  const RelationFields: Pattern := Bracketed("fields:", true, "")
  const RelationRefs: Pattern := Bracketed("references:", true, "")
  const RelationName: Pattern := Quoted(true)

  /**
   * `singleMatcher`: nothing for an empty blob, otherwise the match of the
   * first pattern that matches, in order (a single regex is a one-pattern list).
   */
  function SingleMatcher(pats: seq<Pattern>, blob: string): (m: Match)
    ensures |blob| == 0 ==> m == NoMatch
    ensures |blob| > 0 && |pats| == 1 ==> m == Search(pats[0], blob)
  {
    if |blob| == 0 then NoMatch
    else
      var ms := Searches(pats, blob);
      assert |pats| == 1 ==> FirstMatched(ms) == Search(pats[0], blob) by {
        if |pats| == 1 {
          assert ms[0] == Search(pats[0], blob) && ms[1..] == [];
          assert FirstMatched(ms[1..]) == NoMatch;
        }
      }
      FirstMatched(ms)
  }

  /**
   * On a non-empty blob, `singleMatcher` finds nothing exactly when no
   * pattern matches, and otherwise returns the match of a pattern that
   * matches while none before it does.
   */
  lemma SingleMatcherFirst(pats: seq<Pattern>, blob: string)
    requires |blob| > 0
    ensures SingleMatcher(pats, blob).NoMatch? <==> forall i :: 0 <= i < |pats| ==> Search(pats[i], blob).NoMatch?
    ensures SingleMatcher(pats, blob).Matched? ==>
      exists i :: 0 <= i < |pats| && Search(pats[i], blob) == SingleMatcher(pats, blob) &&
                  forall j :: 0 <= j < i ==> Search(pats[j], blob).NoMatch?
  {
    var ms := Searches(pats, blob);
    FirstMatchedFirst(ms);
    assert forall i :: 0 <= i < |pats| ==> ms[i] == Search(pats[i], blob);
    if SingleMatcher(pats, blob).Matched? {
      var i :| 0 <= i < |ms| && ms[i] == FirstMatched(ms) && forall j :: 0 <= j < i ==> ms[j].NoMatch?;
      assert Search(pats[i], blob) == SingleMatcher(pats, blob);
    }
  }

  /** `match[1]` of a match, with `null` for no match. */
  function Capture(m: Match): Option<string> {
    if m.Matched? then m.group else None
  }

  /**
   * `extractRelationData`: `false` unless the attribute text mentions
   * `relation`; otherwise the `fields:[...]` and `references:[...]` captures
   * and the first quoted string, each `null` when absent.
   */
  function ExtractRelationData(data: string): (r: Option<RelationInfo>)
    ensures r.Some? <==> Contains(data, "relation")
    ensures r.Some? ==> (r.value.foreignKey.Some? <==> Search(RelationFields, data).Matched?)
    ensures r.Some? ==> (r.value.references.Some? <==> Search(RelationRefs, data).Matched?)
    ensures r.Some? ==> (r.value.name.Some? <==> Search(RelationName, data).Matched?)
    ensures r.Some? && r.value.foreignKey.Some? ==> r.value.foreignKey.value != "" && ']' !in r.value.foreignKey.value
    ensures r.Some? && r.value.references.Some? ==> r.value.references.value != "" && ']' !in r.value.references.value
    ensures r.Some? && r.value.name.Some? ==> '"' !in r.value.name.value
    ensures r.Some? ==> r.value.foreignKey == Capture(Search(RelationFields, data))
    ensures r.Some? ==> r.value.references == Capture(Search(RelationRefs, data))
    ensures r.Some? ==> r.value.name == Capture(Search(RelationName, data))
  {
    if !Contains(data, "relation") then None
    else
      Some(RelationInfo(
        Capture(SingleMatcher([RelationFields], data)),
        Capture(SingleMatcher([RelationName], data)),
        Capture(SingleMatcher([RelationRefs], data))))
  }

  /** The non-blank lines of a block, trimmed. */
  function Lines(content: string): (ls: seq<string>)
    ensures forall i :: 0 <= i < |ls| ==> ls[i] != "" && Trimmed(ls[i])
    ensures forall x :: x in ls <==> x != "" && x in TrimAll(Split(content, '\n'))
  {
    TrimmedPieces(content, '\n')
  }

  /**
   * `fieldTokens`: the trimmed non-empty `@`-pieces of a line, every piece
   * after the first written back with its `@`.
   */
  function FieldTokens(line: string): (ts: seq<string>)
    ensures |ts| == |TrimmedPieces(line, '@')|
  {
    var ps := TrimmedPieces(line, '@');
    seq(|ps|, i requires 0 <= i < |ps| => if i != 0 then "@" + ps[i] else ps[i])
  }

  /** The first token holds no `@`; every later one is `@` followed by a non-empty text without `@`. */
  lemma FieldTokensShape(line: string)
    ensures var ts := FieldTokens(line);
      && (|ts| > 0 ==> ts[0] != "" && '@' !in ts[0])
      && forall i :: 1 <= i < |ts| ==> |ts[i]| > 1 && ts[i][0] == '@' && '@' !in ts[i][1..]
  {
    var ps := TrimmedPieces(line, '@');
    var ts := FieldTokens(line);
    forall i | 1 <= i < |ts| ensures |ts[i]| > 1 && ts[i][0] == '@' && '@' !in ts[i][1..] {
      assert ts[i] == "@" + ps[i];
      assert ts[i][1..] == ps[i];
    }
  }

  /** The name and type of a field line: the first two words of its first token; a missing one is a `TypeError`. */
  function Declaration(line: string): (r: Result<Decl>)
    ensures r.Err? ==> r.fault == TypeError
    ensures r.Ok? <==> |FieldTokens(line)| > 0 && |TrimmedPieces(FieldTokens(line)[0], ' ')| >= 2
    ensures r.Ok? ==> r.value.tokens == FieldTokens(line)
    ensures r.Ok? ==> var words := TrimmedPieces(FieldTokens(line)[0], ' ');
      r.value.name == words[0] && r.value.typ == words[1]
  {
    var tokens := FieldTokens(line);
    if tokens == [] then Err(TypeError)
    else
      var words := TrimmedPieces(tokens[0], ' ');
      if |words| < 2 then Err(TypeError) else Ok(Decl(words[0], words[1], tokens))
  }

  /** A declared name and type are single non-empty words, and the line has at least one token. */
  lemma DeclarationWords(line: string)
    requires Declaration(line).Ok?
    ensures var d := Declaration(line).value;
      |d.tokens| > 0 && d.name != "" && ' ' !in d.name && d.typ != "" && ' ' !in d.typ
  {
  }

  /** `typ.replace("?", "").replace("[]", "")`: the first `?` and the first `[]` removed. */
  function Undecorated(typ: string): string {
    ReplaceFirst(ReplaceFirst(typ, "?", ""), "[]", "")
  }

  /** `fieldType.replace("?", "").replace("[]", "").trim()` */
  function BaseType(typ: string): string {
    Trim(Undecorated(typ))
  }

  /** The primary key a `@@` line sets: the composite id's names, trimmed and joined with `_`, when it has one. */
  function CompositeKey(line: string): Option<string> {
    var compositeId := SingleMatcher(CompositeId, line);
    if compositeId.Matched? && Truthy(compositeId.group) then Some(Join(TrimAll(Split(compositeId.group.value, ',')), "_")) else None
  }

  /** What the loop body of `parseModel` reads off one trimmed line, before it stores anything. */
  datatype LineInfo =
      /** a `@@` line, with the primary key its composite id sets, if any */
    | BlockAttribute(compositeKey: Option<string>)
      /** a field line: name, base type, the `@id`/`@unique` tokens, the `?`/`[]` flags and the relation data */
    | FieldDecl(name: string, dType: string, hasId: bool, hasUnique: bool, optional: bool, iterable: bool,
                relation: Option<RelationInfo>)
      /** a field line without a name and a type, where `parseModel` throws a `TypeError` */
    | Malformed

  /** The text analysis of one line: the reads of the loop body of `parseModel`, in its order. */
  function Interpret(line: string): (info: LineInfo)
  {
    if StartsWith(line, "@@") then BlockAttribute(CompositeKey(line))
    else
      match Declaration(line)
      case Err(_) => Malformed
      case Ok(d) =>
        var isOptional := SingleMatcher([OptionalType], d.typ);
        var isIterable := SingleMatcher([IterableType], d.typ);
        var isRelation := if |d.tokens| > 1 then ExtractRelationData(d.tokens[1]) else None;
        FieldDecl(d.name, BaseType(d.typ), "@id" in d.tokens, "@unique" in d.tokens,
                  isOptional.Matched?, isIterable.Matched?, isRelation)
  }

  /**
   * A line is a block attribute iff it starts with `@@`; any other line is
   * malformed iff it has no name and type; a field line is optional iff its
   * type ends in `?`, iterable iff it ends in `[]`, and carries relation data
   * iff its first attribute token mentions `relation`.
   */
  lemma InterpretLine(line: string)
    ensures Interpret(line).BlockAttribute? <==> StartsWith(line, "@@")
    ensures Interpret(line).BlockAttribute? ==> Interpret(line).compositeKey == CompositeKey(line)
    ensures Interpret(line).Malformed? <==> !StartsWith(line, "@@") && Declaration(line).Err?
    ensures Interpret(line).FieldDecl? ==> Declaration(line).Ok?
    ensures Interpret(line).FieldDecl? ==> var info := Interpret(line); var d := Declaration(line).value;
      && info.name == d.name && info.name != "" && info.dType == BaseType(d.typ)
      && (info.hasId <==> "@id" in d.tokens) && (info.hasUnique <==> "@unique" in d.tokens)
      && (info.optional <==> EndsWith(d.typ, "?")) && (info.iterable <==> EndsWith(d.typ, "[]"))
      && (info.relation.Some? <==> |d.tokens| > 1 && Contains(d.tokens[1], "relation"))
      && (info.relation.Some? ==> info.relation == ExtractRelationData(d.tokens[1]))
  {
    if !StartsWith(line, "@@") && Declaration(line).Ok? {
      var d := Declaration(line).value;
      DeclarationWords(line);
      EndingMatchesEndsWith(d.typ, "?");
      EndingMatchesEndsWith(d.typ, "[]");
    }
  }

  /** Every line of a block, interpreted. */
  function Infos(ls: seq<string>): (infos: seq<LineInfo>)
    ensures |infos| == |ls|
    decreases |ls|
  {
    if ls == [] then [] else Infos(ls[..|ls| - 1]) + [Interpret(ls[|ls| - 1])]
  }

  /** The `i`-th interpreted line is the interpretation of the `i`-th line. */
  lemma {:induction false} InfoAt(ls: seq<string>, i: nat)
    requires i < |ls|
    ensures Infos(ls)[i] == Interpret(ls[i])
    decreases |ls|
  {
    if i < |ls| - 1 {
      InfoAt(ls[..|ls| - 1], i);
    }
  }

  /** The primary key after a field line: `@id` sets it, `@unique` only while it is empty. */
  function KeyAfter(pk: string, info: LineInfo): string
    requires info.FieldDecl?
  {
    if info.hasId || (info.hasUnique && |pk| == 0) then info.name else pk
  }

  /** The record stored for a field line, given the primary key as it stands after the line. */
  function FieldOf(info: LineInfo, pk: string): (f: Field)
    requires info.FieldDecl?
    ensures f.name == info.name && !f.isForeignKey && (f.isPrimaryKey <==> |pk| > 0)
    ensures f.isRelation <==> f.relation.Some?
  {
    Field(info.name, info.dType, false, info.relation.Some?, info.relation, |pk| > 0, info.iterable, info.optional)
  }

  /** The foreign keys after storing `f`: its truthy `fields:[...]` capture is pushed, if it has one. */
  function PushForeignKey(fks: seq<string>, f: Field): seq<string> {
    if f.relation.Some? && Truthy(f.relation.value.foreignKey) then fks + [f.relation.value.foreignKey.value] else fks
  }

  /** One turn of the line loop of `parseModel`. */
  function Step(p: Progress, info: LineInfo): (r: Result<Progress>)
    ensures r.Ok? <==> !info.Malformed?
    ensures r.Err? ==> r.fault == TypeError
    ensures info.BlockAttribute? ==> r.value.fields == p.fields && r.value.foreignKeys == p.foreignKeys
  {
    match info
    case BlockAttribute(key) => Ok(p.(primaryKey := if key.Some? then key.value else p.primaryKey))
    case Malformed => Err(TypeError)
    case FieldDecl(name, _, _, _, _, _, _) =>
      var pk := KeyAfter(p.primaryKey, info);
      var f := FieldOf(info, pk);
      Ok(Progress(Put(p.fields, name, f), pk, PushForeignKey(p.foreignKeys, f)))
  }

  /** One turn of the line loop on a field line, written out. */
  lemma StepField(p: Progress, info: LineInfo)
    requires info.FieldDecl?
    ensures var pk := KeyAfter(p.primaryKey, info); var f := FieldOf(info, pk);
      Step(p, info) == Ok(Progress(Put(p.fields, info.name, f), pk, PushForeignKey(p.foreignKeys, f)))
  {
  }

  /** `infos[i]` is a field line declaring the field `k`. */
  predicate Declares(infos: seq<LineInfo>, i: int, k: string) {
    0 <= i < |infos| && infos[i].FieldDecl? && infos[i].name == k
  }

  /** The line loop over `infos`, in order; the first malformed line aborts it. */
  function ParseLines(infos: seq<LineInfo>): (r: Result<Progress>)
    ensures r.Err? ==> r.fault == TypeError
    decreases |infos|
  {
    if infos == [] then Ok(Progress(Empty(), "", []))
    else
      match ParseLines(infos[..|infos| - 1])
      case Err(f) => Err(f)
      case Ok(p) => Step(p, infos[|infos| - 1])
  }

  /** The line loop over one more line is one more turn. */
  lemma ParseLinesSnoc(infos: seq<LineInfo>, i: nat)
    requires i < |infos|
    ensures ParseLines(infos[..i + 1]) ==
      match ParseLines(infos[..i])
      case Err(f) => Err(f)
      case Ok(p) => Step(p, infos[i])
  {
    assert infos[..i + 1][..i] == infos[..i];
  }

  /** The line loop fails exactly when some line is malformed. */
  lemma {:induction false} ParseLinesOk(infos: seq<LineInfo>)
    ensures ParseLines(infos).Ok? <==> forall i :: 0 <= i < |infos| ==> !infos[i].Malformed?
    decreases |infos|
  {
    if infos != [] {
      var prefix := infos[..|infos| - 1];
      ParseLinesOk(prefix);
      assert forall i :: 0 <= i < |prefix| ==> prefix[i] == infos[i];
      if ParseLines(prefix).Ok? {
        assert ParseLines(infos) == Step(ParseLines(prefix).value, infos[|infos| - 1]);
      }
    }
  }

  /**
   * The fields the line loop stores are exactly the names its field lines
   * declare, each stored under its own name and not yet a foreign key.
   */
  lemma {:induction false} ParseLinesKeys(infos: seq<LineInfo>)
    requires ParseLines(infos).Ok?
    ensures var fs := ParseLines(infos).value.fields.entries;
      && (forall k :: k in fs <==> exists i :: Declares(infos, i, k))
      && (forall k :: k in fs ==> fs[k].name == k && !fs[k].isForeignKey)
    decreases |infos|
  {
    if infos != [] {
      var prefix := infos[..|infos| - 1];
      ParseLinesKeys(prefix);
      var fs := ParseLines(infos).value.fields.entries;
      forall k | k in fs ensures exists i :: Declares(infos, i, k) {
        if !Declares(infos, |infos| - 1, k) {
          var i :| Declares(prefix, i, k);
          assert Declares(infos, i, k);
        }
      }
      forall k | exists i :: Declares(infos, i, k) ensures k in fs {
        var i :| Declares(infos, i, k);
        if i < |infos| - 1 {
          assert Declares(prefix, i, k);
        }
      }
    }
  }

  /** The truthy `fields:[...]` capture of a field line, as a list of at most one name. */
  function ForeignKeyOf(info: LineInfo): (c: seq<string>)
    ensures |c| <= 1
  {
    if info.FieldDecl? && info.relation.Some? && Truthy(info.relation.value.foreignKey)
    then [info.relation.value.foreignKey.value] else []
  }

  /** The truthy `fields:[...]` captures of the field lines, in line order. */
  function ForeignKeysOf(infos: seq<LineInfo>): seq<string>
    decreases |infos|
  {
    if infos == [] then [] else ForeignKeysOf(infos[..|infos| - 1]) + ForeignKeyOf(infos[|infos| - 1])
  }

  /**
   * The foreign keys the line loop gathers are the truthy `fields:[...]`
   * captures of its field lines, in line order, repeats kept.
   */
  lemma {:induction false} ParseLinesForeignKeys(infos: seq<LineInfo>)
    requires ParseLines(infos).Ok?
    ensures ParseLines(infos).value.foreignKeys == ForeignKeysOf(infos)
    decreases |infos|
  {
    if infos != [] {
      ParseLinesForeignKeys(infos[..|infos| - 1]);
    }
  }

  /** The second loop of `parseModel`: flag every listed foreign key; one that names no field is a `TypeError`. */
  function MarkAll(fields: OMap<Field>, fks: seq<string>): (r: Result<OMap<Field>>)
    ensures r.Err? ==> r.fault == TypeError
    decreases |fks|
  {
    if fks == [] then Ok(fields)
    else
      match MarkAll(fields, fks[..|fks| - 1])
      case Err(f) => Err(f)
      case Ok(m) =>
        var fk := fks[|fks| - 1];
        if fk in m.entries then Ok(Put(m, fk, m.entries[fk].(isForeignKey := true))) else Err(TypeError)
  }

  /**
   * The foreign-key loop succeeds exactly when every listed key names a
   * field; it keeps the keys and their order, and raises the flag of exactly
   * the listed fields.
   */
  lemma {:induction false} MarkAllFlags(fields: OMap<Field>, fks: seq<string>)
    ensures MarkAll(fields, fks).Ok? <==> forall i :: 0 <= i < |fks| ==> fks[i] in fields.entries
    ensures MarkAll(fields, fks).Ok? ==> var m := MarkAll(fields, fks).value;
      && m.keys == fields.keys && (forall k :: k in m.entries <==> k in fields.entries)
      && forall k :: k in fields.entries ==> m.entries[k] == Flagged(fields.entries[k], k in fks)
    decreases |fks|
  {
    if fks != [] {
      var prefix := fks[..|fks| - 1];
      var fk := fks[|fks| - 1];
      assert fks == prefix + [fk];
      MarkAllFlags(fields, prefix);
    }
  }

  /** A field with its foreign-key flag raised when `on` holds. */
  function Flagged(f: Field, on: bool): Field {
    f.(isForeignKey := f.isForeignKey || on)
  }

  /** `parseModel` as one expression: the line loop, then the foreign-key loop. */
  function ParseModelSpec(raw: RawModel): (r: Result<ModelData>)
    ensures r.Err? ==> r.fault == TypeError
    ensures r.Ok? ==> r.value.name == raw.name && Valid(r.value.fields)
  {
    Finish(raw.name, Infos(Lines(raw.content)))
  }

  /** The record of a block named `name` whose lines are interpreted as `infos`. */
  function Finish(name: string, infos: seq<LineInfo>): (r: Result<ModelData>)
    ensures r.Err? ==> r.fault == TypeError
    ensures r.Ok? ==> r.value.name == name && Valid(r.value.fields)
  {
    match ParseLines(infos)
    case Err(f) => Err(f)
    case Ok(p) =>
      match MarkAll(p.fields, p.foreignKeys)
      case Err(f) => Err(f)
      case Ok(fields) =>
        ParseLinesValid(infos);
        MarkAllFlags(p.fields, p.foreignKeys);
        Ok(ModelData(fields, name, p.primaryKey, p.foreignKeys))
  }

  /** The line loop leaves a well-formed dictionary: every key listed once, in insertion order. */
  lemma {:induction false} ParseLinesValid(infos: seq<LineInfo>)
    requires ParseLines(infos).Ok?
    ensures Valid(ParseLines(infos).value.fields)
    decreases |infos|
  {
    if infos != [] {
      var prefix := infos[..|infos| - 1];
      ParseLinesValid(prefix);
      var p := ParseLines(prefix).value;
      var info := infos[|infos| - 1];
      if info.FieldDecl? {
        PutValid(p.fields, info.name, FieldOf(info, KeyAfter(p.primaryKey, info)));
      }
    }
  }

  /** Once the foreign-key loop has failed on a prefix, it fails on the whole. */
  lemma {:induction false} MarkAllErrSticky(fields: OMap<Field>, fks: seq<string>, n: nat)
    requires n <= |fks| && MarkAll(fields, fks[..n]).Err?
    ensures MarkAll(fields, fks).Err?
  {
    MarkAllFlags(fields, fks[..n]);
    MarkAllFlags(fields, fks);
    var i :| 0 <= i < n && fks[..n][i] !in fields.entries;
    assert fks[i] == fks[..n][i];
  }

  /** What the line analysis gives for a field line, in terms of the values the loop body of `parseModel` computes. */
  lemma FieldRead(line: string, tokens: seq<string>, words: seq<string>)
    requires !StartsWith(line, "@@") && tokens == FieldTokens(line)
    requires tokens != [] ==> words == TrimmedPieces(tokens[0], ' ')
    ensures tokens == [] || |words| < 2 <==> Interpret(line).Malformed?
    ensures tokens != [] && |words| >= 2 ==>
      Interpret(line) == FieldDecl(words[0], BaseType(words[1]), "@id" in tokens, "@unique" in tokens,
                                   SingleMatcher([OptionalType], words[1]).Matched?,
                                   SingleMatcher([IterableType], words[1]).Matched?,
                                   if |tokens| > 1 then ExtractRelationData(tokens[1]) else None)
  {
  }

  /**
   * The `forEach` callback of `parseModel`, run on one trimmed line: it
   * updates the fields, the primary key and the foreign keys as the line
   * says, and a line without a name and a type throws.
   */
  method VisitLine(line: string, fields0: OMap<Field>, primaryKey0: string, foreignKeys0: seq<string>,
                   ghost info: LineInfo)
    returns (r: Result<Progress>)
    requires info == Interpret(line)
    ensures r == Step(Progress(fields0, primaryKey0, foreignKeys0), info)
  {
    var fields, primaryKey, foreignKeys := fields0, primaryKey0, foreignKeys0;
    if StartsWith(line, "@@") {
      var compositeId := SingleMatcher(CompositeId, line);
      if compositeId.Matched? && Truthy(compositeId.group) {
        primaryKey := Join(TrimAll(Split(compositeId.group.value, ',')), "_");
      }
      assert Interpret(line) == BlockAttribute(CompositeKey(line));
      return Ok(Progress(fields, primaryKey, foreignKeys));
    }
    var fieldTokens := FieldTokens(line);
    if fieldTokens == [] {
      FieldRead(line, fieldTokens, []);
      return Err(TypeError);
    }
    var words := TrimmedPieces(fieldTokens[0], ' ');
    FieldRead(line, fieldTokens, words);
    if |words| < 2 {
      return Err(TypeError);
    }
    var fieldName, fieldType := words[0], words[1];
    if "@id" in fieldTokens {
      primaryKey := fieldName;
    }
    if "@unique" in fieldTokens && |primaryKey| == 0 {
      primaryKey := fieldName;
    }
    assert primaryKey == KeyAfter(primaryKey0, info);
    var isOptional := SingleMatcher([OptionalType], fieldType);
    var isIterable := SingleMatcher([IterableType], fieldType);
    var isRelation := if |fieldTokens| > 1 then ExtractRelationData(fieldTokens[1]) else None;
    var field := Field(fieldName, BaseType(fieldType), false, isRelation.Some?, isRelation,
                       |primaryKey| > 0, isIterable.Matched?, isOptional.Matched?);
    assert field == FieldOf(info, primaryKey);
    fields := Put(fields, fieldName, field);
    if isRelation.Some? && Truthy(isRelation.value.foreignKey) {
      foreignKeys := foreignKeys + [isRelation.value.foreignKey.value];
    }
    assert foreignKeys == PushForeignKey(foreignKeys0, field);
    StepField(Progress(fields0, primaryKey0, foreignKeys0), info);
    return Ok(Progress(fields, primaryKey, foreignKeys));
  }

  /** `parseModel`, statement by statement: the line loop, then the foreign-key loop. */
  method ParseModel(raw: RawModel) returns (r: Result<ModelData>)
    ensures r == ParseModelSpec(raw)
  {
    var lines := Lines(raw.content);
    forall i | 0 <= i < |lines| ensures Infos(lines)[i] == Interpret(lines[i]) {
      InfoAt(lines, i);
    }
    var parsed := ReadFields(lines, Infos(lines));
    if parsed.Err? {
      return Err(parsed.fault);
    }
    var p := parsed.value;
    var marked := MarkForeignKeys(p.fields, p.foreignKeys);
    if marked.Err? {
      return Err(marked.fault);
    }
    return Ok(ModelData(marked.value, raw.name, p.primaryKey, p.foreignKeys));
  }

  /** The `forEach` over the lines `lines`, interpreted as `infos`: the first malformed line throws. */
  method ReadFields(lines: seq<string>, ghost infos: seq<LineInfo>) returns (r: Result<Progress>)
    requires |infos| == |lines| && forall i :: 0 <= i < |lines| ==> infos[i] == Interpret(lines[i])
    ensures r == ParseLines(infos)
  {
    var fields: OMap<Field> := Empty();
    var primaryKey := "";
    var foreignKeys: seq<string> := [];
    for i := 0 to |lines|
      invariant ParseLines(infos[..i]) == Ok(Progress(fields, primaryKey, foreignKeys))
    {
      ParseLinesSnoc(infos, i);
      var next := VisitLine(lines[i], fields, primaryKey, foreignKeys, infos[i]);
      if next.Err? {
        ParseLinesOk(infos);
        return Err(next.fault);
      }
      fields, primaryKey, foreignKeys := next.value.fields, next.value.primaryKey, next.value.foreignKeys;
    }
    assert infos[..|lines|] == infos;
    return Ok(Progress(fields, primaryKey, foreignKeys));
  }

  /** The second `forEach`: flag every listed foreign key; one naming no field throws. */
  method MarkForeignKeys(parsed: OMap<Field>, foreignKeys: seq<string>) returns (r: Result<OMap<Field>>)
    ensures r == MarkAll(parsed, foreignKeys)
  {
    var fields := parsed;
    for i := 0 to |foreignKeys|
      invariant MarkAll(parsed, foreignKeys[..i]) == Ok(fields)
    {
      var fk := foreignKeys[i];
      assert foreignKeys[..i + 1][..i] == foreignKeys[..i];
      if fk !in fields.entries {
        MarkAllErrSticky(parsed, foreignKeys, i + 1);
        return Err(TypeError);
      }
      fields := Put(fields, fk, fields.entries[fk].(isForeignKey := true));
    }
    assert foreignKeys[..|foreignKeys|] == foreignKeys;
    return Ok(fields);
  }

  /** `@@id([a,b])`: the bracket after the key holds the list `a,b` and closes just before the `)`. */
  lemma CompositeListBracket(g: string)
    requires g != "" && ']' !in g
    ensures BracketAt("@@id([" + g + "])", 0, "@@id(", false) == Some((g, |g| + 7))
  {
    var line := "@@id([" + g + "])";
    assert line[..5] == "@@id(";
    assert line[5] == '[';
    assert line[6 + |g|] == ']';
    assert forall k :: 6 <= k < 6 + |g| ==> line[k] == g[k - 6] && line[k] != ']';
    var j := Find(line, 6, ']');
    assert j == 6 + |g|;
    assert line[6..j] == g;
  }

  /** `@@id([a,b])` is found by the first composite-id pattern, at its start, with group `a,b`. */
  lemma CompositeListSearch(g: string)
    requires g != "" && ']' !in g
    ensures Search(CompositeId[0], "@@id([" + g + "])") == Matched(Some(g))
  {
    var line := "@@id([" + g + "])";
    CompositeListBracket(g);
    assert line[|g| + 7..|g| + 8] == ")";
    assert MatchAt(CompositeId[0], line, 0) == Matched(Some(g));
  }

  /** Comma-free names, not just one empty name, join to a non-empty list without `,` inside a name. */
  lemma JoinedGroup(names: seq<string>)
    requires |names| >= 1 && names != [""]
    requires forall i :: 0 <= i < |names| ==> ',' !in names[i] && ']' !in names[i]
    ensures Join(names, ",") != "" && ']' !in Join(names, ",")
  {
    var g := Join(names, ",");
    if ']' in g {
      JoinChars(names, ",", ']');
    }
    if |names| > 1 {
      assert g == names[0] + "," + Join(names[1..], ",");
    } else {
      assert names == [names[0]];
    }
  }

  /** `@@id([a,b])` matches the composite-id patterns with group `a,b`. */
  lemma CompositeIdMatch(names: seq<string>)
    requires |names| >= 1 && names != [""]
    requires forall i :: 0 <= i < |names| ==> ',' !in names[i] && ']' !in names[i]
    ensures SingleMatcher(CompositeId, "@@id([" + Join(names, ",") + "])") == Matched(Some(Join(names, ",")))
  {
    JoinedGroup(names);
    CompositeListSearch(Join(names, ","));
  }

  /** `@@id(fields:[a,b])`: the bracket after the key holds the list `a,b` and closes just before the `)`. */
  lemma CompositeFieldsBracket(g: string)
    requires g != "" && ']' !in g
    ensures BracketAt("@@id(fields:[" + g + "])", 0, "@@id(fields:", false) == Some((g, |g| + 14))
  {
    var line := "@@id(fields:[" + g + "])";
    assert line[..12] == "@@id(fields:";
    assert line[12] == '[';
    assert line[13 + |g|] == ']';
    assert forall k :: 13 <= k < 13 + |g| ==> line[k] == g[k - 13] && line[k] != ']';
    var j := Find(line, 13, ']');
    assert j == 13 + |g|;
    assert line[13..j] == g;
  }

  /**
   * `@@id(fields:[a,b])` is not matched by the first composite-id pattern,
   * which wants `[` right after `@@id(`, and is matched by the second, with
   * group `a,b`.
   */
  lemma CompositeFieldsSearch(g: string)
    requires g != "" && ']' !in g && '@' !in g
    ensures Search(CompositeId[0], "@@id(fields:[" + g + "])") == NoMatch
    ensures Search(CompositeId[1], "@@id(fields:[" + g + "])") == Matched(Some(g))
  {
    var line := "@@id(fields:[" + g + "])";
    forall k | 1 < k < |line| ensures line[k] != '@' {
      if k < 13 {
        assert line[..13] == "@@id(fields:[" && line[k] == line[..13][k];
      } else if k < 13 + |g| {
        assert line[k] == g[k - 13];
      }
    }
    forall q | 0 < q <= |line| ensures !OccursAt(line, "@@id(", q) {
      if q + 5 <= |line| {
        assert line[q..q + 5][1] == line[q + 1];
      }
    }
    forall q | 0 <= q <= |line| ensures MatchAt(CompositeId[0], line, q).NoMatch? {
      if q == 0 {
        assert line[5] == 'f';
      }
    }
    SearchLeftmost(CompositeId[0], line);
    CompositeFieldsBracket(g);
    assert line[|g| + 14..|g| + 15] == ")";
    assert MatchAt(CompositeId[1], line, 0) == Matched(Some(g));
  }

  /** `@@id(fields:[g])` matches the composite-id patterns, the second one, with group `g`. */
  lemma CompositeFieldsGroup(g: string)
    requires g != "" && ']' !in g && '@' !in g
    ensures SingleMatcher(CompositeId, "@@id(fields:[" + g + "])") == Matched(Some(g))
  {
    var line := "@@id(fields:[" + g + "])";
    CompositeFieldsSearch(g);
    var ms := Searches(CompositeId, line);
    assert |ms| == 2 && ms[0] == Search(CompositeId[0], line) && ms[1] == Search(CompositeId[1], line);
    assert FirstMatched(ms) == FirstMatched(ms[1..]);
    assert ms[1..][0] == ms[1];
    assert FirstMatched(ms[1..]) == ms[1];
  }

  /** `@@id(fields:[a,b])` matches the composite-id patterns with group `a,b`. */
  lemma CompositeFieldsMatch(names: seq<string>)
    requires |names| >= 1 && names != [""]
    requires forall i :: 0 <= i < |names| ==> ',' !in names[i] && ']' !in names[i] && '@' !in names[i]
    ensures SingleMatcher(CompositeId, "@@id(fields:[" + Join(names, ",") + "])") == Matched(Some(Join(names, ",")))
  {
    var g := Join(names, ",");
    assert g != "" && ']' !in g && '@' !in g by {
      JoinedGroup(names);
      if '@' in g {
        JoinChars(names, ",", '@');
      }
    }
    CompositeFieldsGroup(g);
  }

  /**
   * `@@id([a,b])` sets the primary key to the names, each trimmed, joined
   * with `_`: `@@id([a, b])` gives `a_b`.
   */
  lemma CompositeIdJoined(names: seq<string>)
    requires |names| >= 1 && names != [""]
    requires forall i :: 0 <= i < |names| ==> ',' !in names[i] && ']' !in names[i]
    ensures CompositeKey("@@id([" + Join(names, ",") + "])") == Some(Join(TrimAll(names), "_"))
  {
    CompositeIdMatch(names);
    JoinedKey(names);
  }

  /** `@@id(fields:[a,b])` sets the primary key the same way, for names without `@`. */
  lemma CompositeFieldsJoined(names: seq<string>)
    requires |names| >= 1 && names != [""]
    requires forall i :: 0 <= i < |names| ==> ',' !in names[i] && ']' !in names[i] && '@' !in names[i]
    ensures CompositeKey("@@id(fields:[" + Join(names, ",") + "])") == Some(Join(TrimAll(names), "_"))
  {
    CompositeFieldsMatch(names);
    JoinedKey(names);
  }

  /** Splitting the comma-joined names on `,` and trimming gives the names back, trimmed. */
  lemma JoinedKey(names: seq<string>)
    requires |names| >= 1
    requires forall i :: 0 <= i < |names| ==> ',' !in names[i]
    ensures TrimAll(Split(Join(names, ","), ',')) == TrimAll(names)
  {
    SplitJoin(names, ',');
  }

  /**
   * A field line: an `@id` token makes the field the primary key, `@unique`
   * does so only while the key is empty; the field is stored under its name
   * and flagged as primary key iff the key is now set, a key once set stays
   * set, and its `fields:[...]` capture is appended to the foreign keys.
   */
  lemma FieldLineStep(p: Progress, info: LineInfo)
    requires info.FieldDecl? && info.name != ""
    ensures Step(p, info).Ok?
    ensures var q := Step(p, info).value;
      && (info.hasId ==> q.primaryKey == info.name)
      && (!info.hasId && info.hasUnique && p.primaryKey == "" ==> q.primaryKey == info.name)
      && (!info.hasId && (!info.hasUnique || p.primaryKey != "") ==> q.primaryKey == p.primaryKey)
      && (p.primaryKey != "" ==> q.primaryKey != "")
      && q.fields.entries == p.fields.entries[info.name := FieldOf(info, q.primaryKey)]
      && (q.fields.entries[info.name].isPrimaryKey <==> q.primaryKey != "")
      && (info.relation.Some? && Truthy(info.relation.value.foreignKey) ==>
            q.foreignKeys == p.foreignKeys + [info.relation.value.foreignKey.value])
      && (info.relation.None? || !Truthy(info.relation.value.foreignKey) ==> q.foreignKeys == p.foreignKeys)
  {
  }

  /**
   * The type token: `T`, `T?` and `T[]` all lose their decoration and give
   * `T` back, and only `T?` ends in `?`, only `T[]` in `[]`.
   */
  lemma UndecoratedRoundTrip(base: string)
    requires '?' !in base && '[' !in base
    ensures Undecorated(base) == base && !EndsWith(base, "?") && !EndsWith(base, "[]")
    ensures Undecorated(base + "?") == base && EndsWith(base + "?", "?") && !EndsWith(base + "?", "[]")
    ensures Undecorated(base + "[]") == base && !EndsWith(base + "[]", "?") && EndsWith(base + "[]", "[]")
  {
    NotOccurring(base, "?");
    NotOccurring(base, "[]");
    ReplaceAbsent(base, "?", "");
    ReplaceAbsent(base, "[]", "");
    FirstOccurrenceAfter(base, "?", "");
    assert base + "?" + "" == base + "?";
    assert base + "" == base;
    FirstOccurrenceAfter(base, "[]", "");
    assert base + "[]" + "" == base + "[]";
    assert '?' !in base + "[]";
    NotOccurring(base + "[]", "?");
    ReplaceAbsent(base + "[]", "?", "");
    if |base| >= 1 {
      assert base[|base| - 1] in base;
    }
    if |base| >= 2 {
      assert base[|base| - 2] in base;
    }
    assert (base + "?")[|base|] == '?';
    assert (base + "[]")[|base| + 1] == ']';
  }

  /** The type of a field line is trimmed: a type word such as `User\t` gives `User`. */
  lemma BaseTypeTrims(base: string, c: char)
    requires base != "" && Trimmed(base) && '?' !in base && '[' !in base && IsSpace(c)
    ensures BaseType(base + [c]) == base
  {
    var t := base + [c];
    assert Undecorated(t) == t by {
      assert '?' !in t && '[' !in t by {
        assert forall i :: 0 <= i < |base| ==> t[i] == base[i];
      }
      UndecoratedRoundTrip(t);
    }
    TrimTrailingSpace(base, c);
  }

  /**
   * Version 1 trims what is left: `T`, `T?` and `T[]` all have the base type
   * `T` with the white space at its ends removed.
   */
  lemma TypeDecorationRoundTrip(base: string)
    requires '?' !in base && '[' !in base
    ensures BaseType(base) == Trim(base) && BaseType(base + "?") == Trim(base) && BaseType(base + "[]") == Trim(base)
  {
    UndecoratedRoundTrip(base);
  }

  /** A pattern whose first character does not occur in `s` occurs nowhere in `s`. */
  lemma NotOccurring(s: string, pat: string)
    requires pat != [] && pat[0] !in s
    ensures forall k :: 0 <= k <= |s| ==> !OccursAt(s, pat, k)
  {
  }

  /**
   * A later field line with the same name overwrites the earlier one: the
   * entry for a name is what the last line declaring it stored.
   */
  lemma {:induction false} LastDeclarationWins(infos: seq<LineInfo>, j: nat, k: string)
    requires ParseLines(infos).Ok? && Declares(infos, j, k)
    requires forall i :: j < i < |infos| ==> !Declares(infos, i, k)
    ensures ParseLines(infos[..j + 1]).Ok? && k in ParseLines(infos[..j + 1]).value.fields.entries
    ensures k in ParseLines(infos).value.fields.entries
    ensures ParseLines(infos).value.fields.entries[k] == ParseLines(infos[..j + 1]).value.fields.entries[k]
    decreases |infos|
  {
    ParseLinesKeys(infos);
    if j < |infos| - 1 {
      var prefix := infos[..|infos| - 1];
      assert prefix[..j + 1] == infos[..j + 1];
      assert Declares(prefix, j, k);
      forall i | j < i < |prefix| ensures !Declares(prefix, i, k) {
        assert prefix[i] == infos[i];
        assert !Declares(infos, i, k);
      }
      assert ParseLines(prefix).Ok?;
      LastDeclarationWins(prefix, j, k);
      assert !Declares(infos, |infos| - 1, k);
      assert ParseLines(infos) == Step(ParseLines(prefix).value, infos[|infos| - 1]);
    } else {
      assert infos[..j + 1] == infos;
      assert Declares(infos[..j + 1], j, k);
    }
  }

  /**
   * After `parseModel`, a field is flagged as a foreign key exactly when its
   * name is in `foriegnKeys`, whatever the declaration order; every listed
   * key names a field, and the line loop succeeding with a key naming no
   * field is a `TypeError`.
   */
  lemma ForeignKeyFlags(name: string, infos: seq<LineInfo>)
    ensures Finish(name, infos).Ok? ==>
      var md := Finish(name, infos).value;
      && (forall k :: k in md.foreignKeys ==> k in md.fields.entries)
      && (forall k :: k in md.fields.entries ==> (md.fields.entries[k].isForeignKey <==> k in md.foreignKeys))
      && (forall k :: k in md.fields.entries ==> md.fields.entries[k].name == k)
    ensures ParseLines(infos).Ok? ==>
      var p := ParseLines(infos).value;
      (Finish(name, infos).Ok? <==> forall k :: k in p.foreignKeys ==> k in p.fields.entries)
  {
    var pl := ParseLines(infos);
    if pl.Ok? {
      var p := pl.value;
      ParseLinesKeys(infos);
      MarkAllFlags(p.fields, p.foreignKeys);
      assert forall k :: k in p.foreignKeys <==> exists i :: 0 <= i < |p.foreignKeys| && p.foreignKeys[i] == k;
    }
  }

  /** The field keys of a record are exactly the names its field lines declare. */
  lemma FinishKeys(name: string, infos: seq<LineInfo>, k: string)
    requires Finish(name, infos).Ok?
    ensures k in Finish(name, infos).value.fields.entries <==> exists i :: Declares(infos, i, k)
  {
    ParseLinesKeys(infos);
    var p := ParseLines(infos).value;
    MarkAllFlags(p.fields, p.foreignKeys);
  }

  /** The `i`-th line declares `k` exactly when it is no `@@` line and its name is `k`. */
  lemma DeclaresLine(ls: seq<string>, i: nat, k: string)
    requires i < |ls|
    ensures Declares(Infos(ls), i, k) <==>
      !StartsWith(ls[i], "@@") && Declaration(ls[i]).Ok? && Declaration(ls[i]).value.name == k
  {
    InfoAt(ls, i);
    InterpretLine(ls[i]);
  }

  /** The field keys of a parsed model are exactly the names declared by its field lines. */
  lemma FieldKeys(raw: RawModel, k: string)
    requires ParseModelSpec(raw).Ok?
    ensures var ls := Lines(raw.content);
      k in ParseModelSpec(raw).value.fields.entries <==>
      exists i :: 0 <= i < |ls| && !StartsWith(ls[i], "@@") && Declaration(ls[i]).Ok? && Declaration(ls[i]).value.name == k
  {
    var ls := Lines(raw.content);
    FinishKeys(raw.name, Infos(ls), k);
    if k in ParseModelSpec(raw).value.fields.entries {
      var i :| Declares(Infos(ls), i, k);
      DeclaresLine(ls, i, k);
    }
    if exists i :: 0 <= i < |ls| && !StartsWith(ls[i], "@@") && Declaration(ls[i]).Ok? && Declaration(ls[i]).value.name == k {
      var i :| 0 <= i < |ls| && !StartsWith(ls[i], "@@") && Declaration(ls[i]).Ok? && Declaration(ls[i]).value.name == k;
      DeclaresLine(ls, i, k);
    }
  }

  /** `parseModel` on every block, in order. */
  function Parses(raws: seq<RawModel>): (ps: seq<Result<ModelData>>)
    ensures |ps| == |raws|
  {
    seq(|raws|, i requires 0 <= i < |raws| => ParseModelSpec(raws[i]))
  }

  /**
   * The `map` over blocks whose parses are `ps`: the first failing parse
   * aborts it, and otherwise each block gives its `(name, record)` pair.
   */
  function PairUp(raws: seq<RawModel>, ps: seq<Result<ModelData>>): (r: Result<seq<(string, ModelData)>>)
    requires |ps| == |raws|
    ensures r.Ok? <==> forall i :: 0 <= i < |ps| ==> ps[i].Ok?
    ensures r.Ok? ==> |r.value| == |raws| && forall i :: 0 <= i < |raws| ==> r.value[i] == (raws[i].name, ps[i].value)
    decreases |raws|
  {
    if raws == [] then Ok([])
    else if ps[0].Err? then Err(ps[0].fault)
    else
      match PairUp(raws[1..], ps[1..])
      case Err(f) => Err(f)
      case Ok(rest) => Ok([(raws[0].name, ps[0].value)] + rest)
  }

  /** `rawModelData.map((data) => [data.name, parseModel(data)])`: the first failing block aborts. */
  function ParseAll(raws: seq<RawModel>): (r: Result<seq<(string, ModelData)>>)
    ensures r.Ok? <==> forall i :: 0 <= i < |raws| ==> ParseModelSpec(raws[i]).Ok?
    ensures r.Ok? ==> |r.value| == |raws| &&
                      forall i :: 0 <= i < |raws| ==> r.value[i] == (raws[i].name, ParseModelSpec(raws[i]).value)
  {
    PairUp(raws, Parses(raws))
  }

  /**
   * `getParsedModels` from the extracted blocks: a dictionary from each
   * block's name to its parsed record.
   */
  function GetParsedModels(raws: seq<RawModel>): (r: Result<OMap<ModelData>>)
    ensures r.Ok? <==> forall i :: 0 <= i < |raws| ==> ParseModelSpec(raws[i]).Ok?
    ensures r.Ok? ==> Valid(r.value)
    ensures r.Ok? ==> forall k :: k in r.value.entries <==> exists i :: 0 <= i < |raws| && raws[i].name == k
  {
    match ParseAll(raws)
    case Err(f) => Err(f)
    case Ok(pairs) => Ok(FromEntries(pairs))
  }

  /** Each name maps to the parse of the last block with that name, and that record carries the name. */
  lemma GetParsedModelsLastWins(raws: seq<RawModel>, i: nat)
    requires GetParsedModels(raws).Ok? && i < |raws|
    requires forall j :: i < j < |raws| ==> raws[j].name != raws[i].name
    ensures raws[i].name in GetParsedModels(raws).value.entries
    ensures GetParsedModels(raws).value.entries[raws[i].name] == ParseModelSpec(raws[i]).value
    ensures GetParsedModels(raws).value.entries[raws[i].name].name == raws[i].name
  {
    var pairs := ParseAll(raws).value;
    FromEntriesLastWins(pairs, i);
  }
}
