/**
 * The model half of `parser` (src/lib/parser.ts): each extracted
 * `model Name { ... }` block becomes a record with its block attributes and
 * a dictionary of field definitions, whose relation arguments are read off
 * the line as comma-separated lists.
 */
module SchemaParser {
  import opened Results
  import opened Text
  import opened Patterns
  import opened OrderedMap
  import opened Offers
  import ParsedModels

  /** One `model Name { ... }` block as found in the schema: its name and its body. */
  datatype ExtractedModel = ExtractedModel(name: string, content: string)

  /** The arguments of `@relation(...)`, each a list of trimmed items (`mapping` is the `map:` list). */
  datatype RelationArgs = RelationArgs(
    fields: seq<string>,
    references: seq<string>,
    mapping: seq<string>,
    name: Option<string>,
    onUpdate: seq<string>,
    onDelete: seq<string>)

  /** `FieldDefinition`: what one field line declares. */
  datatype FieldDefinition = FieldDefinition(
    name: string,
    dType: string,
    optional: bool,
    iterable: bool,
    attributes: seq<string>,
    isRelation: bool,
    relation: RelationArgs)

  /** One entry of `SchemaAST.models`. */
  datatype ModelAst = ModelAst(name: string, blockAttributes: seq<string>, fields: OMap<FieldDefinition>)

  /** `@relation\([^)]*fields:\s*\[([^\]]+)\][^)]*\)` */
  const FieldsArg: seq<Pattern> := [RelationArg("fields:")]
  /** `@relation\([^)]*references:\s*\[([^\]]+)\][^)]*\)` */
  const ReferencesArg: seq<Pattern> := [RelationArg("references:")]
  /** `@relation\([^)]*map:\s*\[([^\]]+)\][^)]*\)` */
  const MapArg: seq<Pattern> := [RelationArg("map:")]
  /** `onDelete\s*:\s*(\w+)` */
  const OnDeleteArg: seq<Pattern> := [Word("onDelete")]
  /** `onUpdate\s*:\s*(\w+)` */
  const OnUpdateArg: seq<Pattern> := [Word("onUpdate")]
  /** `name\s*:\s*"([^"]+)"`, then `"([^"]+)"` */
  const NameArg: seq<Pattern> := [Named("name"), Quoted(false)]

  /** `g.split(",").map((_) => _.trim())` */
  function ListItems(g: string): (r: seq<string>)
    ensures |r| >= 1
    ensures forall i :: 0 <= i < |r| ==> Trimmed(r[i])
  {
    TrimAll(Split(g, ','))
  }

  /** Comma-free items joined with `,` are read back as they were, each trimmed. */
  lemma ListItemsJoin(items: seq<string>)
    requires |items| >= 1
    requires forall i :: 0 <= i < |items| ==> ',' !in items[i]
    ensures ListItems(Join(items, ",")) == TrimAll(items)
  {
    SplitJoin(items, ',');
  }

  /** The items of the first group among the results `ms` that is a match, or `[]`. */
  function FirstItems(ms: seq<Match>): seq<string> {
    match FirstMatched(ms)
    case Matched(Some(g)) => ListItems(g)
    case _ => []
  }

  /**
   * `getMatchResult(regex)`: the items of the first group of the first
   * pattern that matches the line, tried in order, or `[]`.
   */
  function MatchResult(pats: seq<Pattern>, line: string): seq<string> {
    FirstItems(Searches(pats, line))
  }

  /**
   * When every match carries a group, there are items exactly when some
   * result is a match, and then they are those of the first match.
   */
  lemma FirstItemsFound(ms: seq<Match>)
    requires forall i :: 0 <= i < |ms| && ms[i].Matched? ==> ms[i].group.Some?
    ensures FirstItems(ms) != [] <==> exists i :: 0 <= i < |ms| && ms[i].Matched?
    ensures FirstItems(ms) != [] ==>
      exists i :: 0 <= i < |ms| && ms[i].Matched? && FirstItems(ms) == ListItems(ms[i].group.value) &&
                  forall j :: 0 <= j < i ==> ms[j].NoMatch?
  {
    FirstMatchedFirst(ms);
  }

  /**
   * With patterns that all capture a group, there is a list exactly when one
   * of them matches, and then it is the list of the first one that does.
   */
  lemma MatchResultFound(pats: seq<Pattern>, line: string)
    requires forall i :: 0 <= i < |pats| ==> !pats[i].Ending?
    ensures MatchResult(pats, line) != [] <==> exists i :: 0 <= i < |pats| && Search(pats[i], line).Matched?
    ensures MatchResult(pats, line) != [] ==>
      exists i :: 0 <= i < |pats| && Search(pats[i], line).Matched? &&
                  MatchResult(pats, line) == ListItems(Search(pats[i], line).group.value) &&
                  forall j :: 0 <= j < i ==> Search(pats[j], line).NoMatch?
  {
    var ms := Searches(pats, line);
    assert forall i :: 0 <= i < |pats| ==> ms[i] == Search(pats[i], line);
    forall i | 0 <= i < |ms| && ms[i].Matched? ensures ms[i].group.Some? {
      assert GroupShape(pats[i], ms[i].group);
    }
    FirstItemsFound(ms);
  }

  /** `getMatchResult(...)[0]` for the relation name: the first item, or `undefined`. */
  function NameOf(line: string): (r: Option<string>)
    ensures r.Some? <==> MatchResult(NameArg, line) != []
    ensures r.Some? ==> r.value == MatchResult(NameArg, line)[0]
  {
    var items := MatchResult(NameArg, line);
    if items == [] then None else Some(items[0])
  }

  /** `items` is what one regular expression gives for `line`: the list of its group, or `[]` when it does not match. */
  predicate ReadsAs(items: seq<string>, p: Pattern, line: string) {
    match Search(p, line)
    case Matched(Some(g)) => items == ListItems(g)
    case _ => items == []
  }

  /** A one-pattern list gives the items of that pattern's group. */
  lemma SingleMatchResult(p: Pattern, line: string)
    ensures ReadsAs(MatchResult([p], line), p, line)
  {
    var ms := Searches([p], line);
    assert ms == [Search(p, line)];
    assert FirstMatched(ms[1..]) == NoMatch;
  }

  /**
   * The relation arguments read off a field line: the `fields:`,
   * `references:` and `map:` lists inside `@relation(...)`, the `onUpdate:`
   * and `onDelete:` words, and the name (see `RelationNameFallback`).
   */
  function RelationArgsOf(line: string): (r: RelationArgs)
    ensures ReadsAs(r.fields, RelationArg("fields:"), line)
    ensures ReadsAs(r.references, RelationArg("references:"), line)
    ensures ReadsAs(r.mapping, RelationArg("map:"), line)
    ensures ReadsAs(r.onUpdate, Word("onUpdate"), line)
    ensures ReadsAs(r.onDelete, Word("onDelete"), line)
    ensures r.name.Some? <==> MatchResult(NameArg, line) != []
  {
    SingleMatchResult(RelationArg("fields:"), line);
    SingleMatchResult(RelationArg("references:"), line);
    SingleMatchResult(RelationArg("map:"), line);
    SingleMatchResult(Word("onUpdate"), line);
    SingleMatchResult(Word("onDelete"), line);
    RelationArgs(MatchResult(FieldsArg, line), MatchResult(ReferencesArg, line), MatchResult(MapArg, line),
                 NameOf(line), MatchResult(OnUpdateArg, line), MatchResult(OnDeleteArg, line))
  }

  /** `xs.filter((_) => _.trim())`: the pieces holding more than white space, in order. */
  function Filled(xs: seq<string>): (r: seq<string>)
    ensures |r| <= |xs|
    ensures forall x :: x in r <==> x in xs && Trim(x) != []
    decreases |xs|
  {
    if xs == [] then []
    else if Trim(xs[0]) != [] then [xs[0]] + Filled(xs[1..])
    else Filled(xs[1..])
  }

  /** `xs.map((_) => _.replace("\r", ""))` */
  function DropReturns(xs: seq<string>): (r: seq<string>)
    ensures |r| == |xs|
  {
    seq(|xs|, i requires 0 <= i < |xs| => ReplaceFirst(xs[i], "\r", ""))
  }

  /** The words of a field line: its space-separated pieces with more than white space, a `\r` removed from each. */
  function Vals(line: string): seq<string> {
    DropReturns(Filled(Split(line, ' ')))
  }

  /** `xs.filter((_) => !_.startsWith("relation"))` */
  function NotRelation(xs: seq<string>): (r: seq<string>)
    ensures |r| <= |xs|
    ensures forall x :: x in r <==> x in xs && !StartsWith(x, "relation")
    decreases |xs|
  {
    if xs == [] then []
    else if !StartsWith(xs[0], "relation") then [xs[0]] + NotRelation(xs[1..])
    else NotRelation(xs[1..])
  }

  /** The attributes of a field line: the trimmed pieces after each `@`, except the `relation` ones. */
  function Attributes(line: string): (r: seq<string>)
    ensures forall x :: x in r <==> x in TrimAll(Split(line, '@')[1..]) && !StartsWith(x, "relation")
  {
    NotRelation(TrimAll(Split(line, '@')[1..]))
  }

  /**
   * The definition a field line with words `vals` declares: the type is the
   * second word with its first `?` and then its first `[]` removed, and
   * nothing trimmed (see `TypeTokenFlags` and `TypeKeepsWhiteSpace`).
   */
  function FieldDefinitionOf(line: string, vals: seq<string>): (d: FieldDefinition)
    requires |vals| >= 2
    ensures d.name == vals[0]
    ensures d.optional <==> EndsWith(vals[1], "?") || EndsWith(vals[1], "[]")
    ensures d.iterable <==> EndsWith(vals[1], "[]")
    ensures d.iterable ==> d.optional
    ensures d.isRelation <==> Contains(line, "@relation")
    ensures d.relation == RelationArgsOf(line)
  {
    FieldDefinition(vals[0], ParsedModels.Undecorated(vals[1]), EndsWith(vals[1], "?") || EndsWith(vals[1], "[]"),
                    EndsWith(vals[1], "[]"), Attributes(line), Contains(line, "@relation"), RelationArgsOf(line))
  }

  /** What the `map` callback of `parseModel` makes of one line. */
  datatype LineRead =
      /** a `@@` line, trimmed, with its first `\r` removed */
    | BlockAttribute(text: string)
      /** a field line: its first word and the definition it declares */
    | FieldLine(key: string, definition: FieldDefinition)
      /** a line with fewer than two words, where reading `vals[1]` throws a `TypeError` */
    | Unreadable

  /** The `map` callback of `parseModel` on one line. */
  function ReadLine(line: string): (r: LineRead)
    ensures r.BlockAttribute? <==> StartsWith(Trim(line), "@@")
    ensures r.Unreadable? <==> !StartsWith(Trim(line), "@@") && |Vals(line)| < 2
    ensures r.FieldLine? ==> r.key == r.definition.name
  {
    if StartsWith(Trim(line), "@@") then BlockAttribute(ReplaceFirst(Trim(line), "\r", ""))
    else if |Vals(line)| < 2 then Unreadable
    else FieldLine(Vals(line)[0], FieldDefinitionOf(line, Vals(line)))
  }

  /** A line that is all white space has no words. */
  lemma BlankLineNoWords(line: string)
    requires Trim(line) == []
    ensures Filled(Split(line, ' ')) == []
  {
    TrimEmpty(line);
    var pieces := Split(line, ' ');
    SplitInside(line, ' ');
    forall i | 0 <= i < |pieces| ensures Trim(pieces[i]) == [] {
      BlankPiece(line, pieces[i]);
    }
    NothingFilled(pieces);
  }

  /** Pieces that are all white space leave nothing after the filter. */
  lemma {:induction false} NothingFilled(xs: seq<string>)
    requires forall i :: 0 <= i < |xs| ==> Trim(xs[i]) == []
    ensures Filled(xs) == []
    decreases |xs|
  {
    if xs != [] {
      NothingFilled(xs[1..]);
    }
  }

  /** A piece of a string made of white space is white space too. */
  lemma BlankPiece(line: string, piece: string)
    requires forall i :: 0 <= i < |line| ==> IsSpace(line[i])
    requires forall c :: c in piece ==> c in line
    ensures Trim(piece) == []
  {
    forall k | 0 <= k < |piece| ensures IsSpace(piece[k]) {
      assert piece[k] in piece;
    }
    TrimEmpty(piece);
  }

  /** So reading the type of a blank line throws. */
  lemma BlankLineUnreadable(line: string)
    requires Trim(line) == []
    ensures ReadLine(line) == Unreadable
  {
    BlankLineNoWords(line);
    assert |Vals(line)| == 0;
  }

  /** A `@@` line without an inner `\r` is kept as its trimmed text. */
  lemma BlockAttributeKept(line: string)
    requires StartsWith(Trim(line), "@@") && '\r' !in line
    ensures ReadLine(line) == BlockAttribute(Trim(line))
  {
    TrimInside(line);
    ParsedModels.NotOccurring(Trim(line), "\r");
    ReplaceAbsent(Trim(line), "\r", "");
  }

  /** Every line of a block body, read. */
  function Reads(ls: seq<string>): (rs: seq<LineRead>)
    ensures |rs| == |ls|
    decreases |ls|
  {
    if ls == [] then [] else Reads(ls[..|ls| - 1]) + [ReadLine(ls[|ls| - 1])]
  }

  /** The `i`-th read is the read of the `i`-th line. */
  lemma {:induction false} ReadAt(ls: seq<string>, i: nat)
    requires i < |ls|
    ensures Reads(ls)[i] == ReadLine(ls[i])
    decreases |ls|
  {
    if i < |ls| - 1 {
      ReadAt(ls[..|ls| - 1], i);
    }
  }

  /** What a line contributes to the field list: a pair, nothing, or the `TypeError`. */
  function EntryOutcome(read: LineRead): Result<Option<(string, FieldDefinition)>> {
    match read
    case BlockAttribute(_) => Ok(None)
    case FieldLine(key, definition) => Ok(Some((key, definition)))
    case Unreadable => Err(TypeError)
  }

  /** What a line contributes to `blockAttributes`. */
  function AttributeOutcome(read: LineRead): Result<Option<string>> {
    if read.BlockAttribute? then Ok(Some(read.text)) else Ok(None)
  }

  /** The field-list outcomes of the lines read as `rs`. */
  function EntryOutcomes(rs: seq<LineRead>): (os: seq<Result<Option<(string, FieldDefinition)>>>)
    ensures |os| == |rs|
  {
    seq(|rs|, i requires 0 <= i < |rs| => EntryOutcome(rs[i]))
  }

  /** The block-attribute outcomes of the lines read as `rs`. */
  function AttributeOutcomes(rs: seq<LineRead>): (os: seq<Result<Option<string>>>)
    ensures |os| == |rs|
  {
    seq(|rs|, i requires 0 <= i < |rs| => AttributeOutcome(rs[i]))
  }

  /** The lines of a block body. */
  function Lines(content: string): seq<string> {
    Split(content, '\n')
  }

  /**
   * The record `parseModel` builds from the lines read as `rs`: the pairs
   * handed to `Object.fromEntries`, and the block attributes, or the
   * `TypeError` of the first unreadable line.
   */
  function Assemble(name: string, rs: seq<LineRead>): (r: Result<ModelAst>)
    ensures r.Err? ==> r.fault == TypeError
    ensures r.Ok? ==> r.value.name == name
  {
    match Collect(EntryOutcomes(rs))
    case Err(_) => Err(TypeError)
    case Ok(pairs) =>
      match Collect(AttributeOutcomes(rs))
      case Err(_) => Err(TypeError)
      case Ok(attrs) => Ok(ModelAst(name, attrs, FromEntries(pairs)))
  }

  /** `parseModel` as one expression. */
  function ParseModelSpec(x: ExtractedModel): (r: Result<ModelAst>) {
    Assemble(x.name, Reads(Lines(x.content)))
  }

  /** Reading the block attributes never fails. */
  lemma AttributesCollected(rs: seq<LineRead>)
    ensures Collect(AttributeOutcomes(rs)).Ok?
  {
    CollectErr(AttributeOutcomes(rs));
  }

  /**
   * The `map` callback of `parseModel` on one line: a `@@` line is pushed to
   * the block attributes and yields nothing, a field line yields its key and
   * definition, and a line with fewer than two words throws.
   */
  method VisitLine(field: string, blockAttributes0: seq<string>, ghost read: LineRead)
    returns (blockAttributes: seq<string>, entry: Result<Option<(string, FieldDefinition)>>)
    requires read == ReadLine(field)
    ensures entry == EntryOutcome(read)
    ensures blockAttributes == if read.BlockAttribute? then blockAttributes0 + [read.text] else blockAttributes0
  {
    blockAttributes := blockAttributes0;
    if StartsWith(Trim(field), "@@") {
      blockAttributes := blockAttributes + [ReplaceFirst(Trim(field), "\r", "")];
      return blockAttributes, Ok(None);
    }
    var vals := Vals(field);
    if |vals| < 2 {
      return blockAttributes, Err(TypeError);
    }
    return blockAttributes, Ok(Some((vals[0], FieldDefinitionOf(field, vals))));
  }

  /** `parseModel`: the callback mapped over the lines, the empty results filtered out, the rest handed to `Object.fromEntries`. */
  method ParseModel(x: ExtractedModel) returns (r: Result<ModelAst>)
    ensures r == ParseModelSpec(x)
  {
    var lines := Lines(x.content);
    forall i | 0 <= i < |lines| ensures Reads(lines)[i] == ReadLine(lines[i]) {
      ReadAt(lines, i);
    }
    r := ReadModelLines(x.name, lines, Reads(lines));
  }

  /** The loop of `parseModel` over the lines `lines`, read as `rs`. */
  method ReadModelLines(name: string, lines: seq<string>, ghost rs: seq<LineRead>) returns (r: Result<ModelAst>)
    requires |rs| == |lines| && forall i :: 0 <= i < |lines| ==> rs[i] == ReadLine(lines[i])
    ensures r == Assemble(name, rs)
  {
    ghost var entryOutcomes := EntryOutcomes(rs);
    ghost var attributeOutcomes := AttributeOutcomes(rs);
    var blockAttributes: seq<string> := [];
    var fields: seq<(string, FieldDefinition)> := [];
    for i := 0 to |lines|
      invariant Collect(entryOutcomes[..i]) == Ok(fields)
      invariant Collect(attributeOutcomes[..i]) == Ok(blockAttributes)
    {
      CollectSnoc(entryOutcomes, i);
      CollectSnoc(attributeOutcomes, i);
      var entry;
      blockAttributes, entry := VisitLine(lines[i], blockAttributes, rs[i]);
      if entry.Err? {
        CollectSticky(entryOutcomes, i + 1);
        return Err(entry.fault);
      }
      if entry.value.Some? {
        fields := fields + [entry.value.value];
      }
    }
    assert entryOutcomes[..|lines|] == entryOutcomes;
    assert attributeOutcomes[..|lines|] == attributeOutcomes;
    return Ok(ModelAst(name, blockAttributes, FromEntries(fields)));
  }

  /** The record is built exactly when no line is unreadable. */
  lemma AssembleFails(name: string, rs: seq<LineRead>)
    ensures Assemble(name, rs).Err? <==> exists i :: 0 <= i < |rs| && rs[i].Unreadable?
  {
    var os := EntryOutcomes(rs);
    CollectErr(os);
    AttributesCollected(rs);
    assert forall i :: 0 <= i < |rs| ==> os[i] == EntryOutcome(rs[i]);
  }

  /** A blank line in a model body makes `parseModel` throw. */
  lemma BlankLineFails(x: ExtractedModel, i: nat)
    requires i < |Lines(x.content)| && Trim(Lines(x.content)[i]) == []
    ensures ParseModelSpec(x) == Err(TypeError)
  {
    var rs := Reads(Lines(x.content));
    BlankLineUnreadable(Lines(x.content)[i]);
    ReadAt(Lines(x.content), i);
    AssembleFails(x.name, rs);
  }

  /** The block attributes are exactly the texts of the `@@` lines. */
  lemma AssembleAttributes(name: string, rs: seq<LineRead>, a: string)
    requires Assemble(name, rs).Ok?
    ensures a in Assemble(name, rs).value.blockAttributes <==> exists i :: 0 <= i < |rs| && rs[i] == BlockAttribute(a)
  {
    var os := AttributeOutcomes(rs);
    AttributesCollected(rs);
    CollectMembers(os, a);
    assert forall i :: 0 <= i < |rs| ==> os[i] == AttributeOutcome(rs[i]);
  }

  /** `rs[i]` is a field line keyed `k`. */
  predicate KeyedAt(rs: seq<LineRead>, i: int, k: string) {
    0 <= i < |rs| && rs[i].FieldLine? && rs[i].key == k
  }

  /** The fields of the record are keyed by exactly the first words of the field lines. */
  lemma AssembleKeys(name: string, rs: seq<LineRead>, k: string)
    requires Assemble(name, rs).Ok?
    ensures k in Assemble(name, rs).value.fields.entries <==> exists i :: KeyedAt(rs, i, k)
  {
    var os := EntryOutcomes(rs);
    var pairs := Collect(os).value;
    var fields := FromEntries(pairs);
    assert forall i :: 0 <= i < |rs| ==> os[i] == EntryOutcome(rs[i]);
    if k in fields.entries {
      var j :| 0 <= j < |pairs| && pairs[j].0 == k;
      CollectMembers(os, pairs[j]);
      var i :| 0 <= i < |os| && os[i] == Ok(Some(pairs[j]));
      assert KeyedAt(rs, i, k);
    }
    if exists i :: KeyedAt(rs, i, k) {
      var i :| KeyedAt(rs, i, k);
      var p := (k, rs[i].definition);
      CollectMembers(os, p);
      var j :| 0 <= j < |pairs| && pairs[j] == p;
      assert pairs[j].0 == k;
    }
  }

  /**
   * Each field of the record is stored under its own name: the value kept
   * for a key is the definition of some field line with that key, and
   * field lines are keyed by their name.
   */
  lemma AssembleNames(name: string, rs: seq<LineRead>, k: string)
    requires Assemble(name, rs).Ok? && k in Assemble(name, rs).value.fields.entries
    requires forall i :: 0 <= i < |rs| && rs[i].FieldLine? ==> rs[i].key == rs[i].definition.name
    ensures Assemble(name, rs).value.fields.entries[k].name == k
  {
    var os := EntryOutcomes(rs);
    var pairs := Collect(os).value;
    var fields := FromEntries(pairs);
    FromEntriesFrom(pairs, k);
    var j :| 0 <= j < |pairs| && pairs[j] == (k, fields.entries[k]);
    CollectMembers(os, pairs[j]);
    var i :| 0 <= i < |os| && os[i] == Ok(Some(pairs[j]));
    assert os[i] == EntryOutcome(rs[i]);
  }

  /** A key of several field lines keeps the definition of the last of them. */
  lemma AssembleLastWins(name: string, rs: seq<LineRead>, i: nat)
    requires Assemble(name, rs).Ok? && i < |rs| && rs[i].FieldLine?
    requires forall j :: i < j < |rs| ==> !KeyedAt(rs, j, rs[i].key)
    ensures rs[i].key in Assemble(name, rs).value.fields.entries
    ensures Assemble(name, rs).value.fields.entries[rs[i].key] == rs[i].definition
  {
    var os := EntryOutcomes(rs);
    var k := rs[i].key;
    var p := (k, rs[i].definition);
    var pairs := Collect(os).value;
    CollectSplit(os, i + 1);
    var front, back := Collect(os[..i + 1]).value, Collect(os[i + 1..]).value;
    CollectSnoc(os, i);
    assert os[i] == Ok(Some(p));
    var m := |front| - 1;
    assert pairs[m] == p;
    forall j | m < j < |pairs| ensures pairs[j].0 != k {
      var y := pairs[j];
      assert y == back[j - |front|];
      CollectMembers(os[i + 1..], y);
      var t :| 0 <= t < |os[i + 1..]| && os[i + 1..][t] == Ok(Some(y));
      assert os[i + 1 + t] == EntryOutcome(rs[i + 1 + t]);
      assert !KeyedAt(rs, i + 1 + t, k);
    }
    FromEntriesLastWins(pairs, m);
  }

  /** The type token: `T`, `T?` and `T[]` all give the type `T`, and `[]` makes a field optional as well as iterable. */
  lemma TypeTokenFlags(line: string, vals: seq<string>, base: string)
    requires |vals| >= 2
    requires '?' !in base && '[' !in base
    ensures var d := FieldDefinitionOf(line, vals);
      vals[1] == base ==> d.dType == base && !d.optional && !d.iterable
    ensures var d := FieldDefinitionOf(line, vals);
      vals[1] == base + "?" ==> d.dType == base && d.optional && !d.iterable
    ensures var d := FieldDefinitionOf(line, vals);
      vals[1] == base + "[]" ==> d.dType == base && d.optional && d.iterable
  {
    ParsedModels.UndecoratedRoundTrip(base);
  }

  /**
   * Unlike the model reader of `getParsedModels` (see
   * `ParsedModels.BaseTypeTrims`), the type is not trimmed: a type word such
   * as `User\t` (words are split on spaces only) keeps its tab.
   */
  lemma TypeKeepsWhiteSpace(line: string, name: string, base: string, c: char)
    requires '?' !in base && '[' !in base && IsSpace(c)
    ensures FieldDefinitionOf(line, [name, base + [c]]).dType == base + [c]
  {
    var t := base + [c];
    assert '?' !in t && '[' !in t by {
      assert forall i :: 0 <= i < |base| ==> t[i] == base[i];
    }
    ParsedModels.UndecoratedRoundTrip(t);
  }

  /**
   * The relation name is the first item of `name: "..."` when the line has
   * one, and otherwise of the first quoted text; without either it is
   * absent.
   */
  lemma RelationNameFallback(line: string)
    ensures NameOf(line).None? <==> Search(Named("name"), line).NoMatch? && Search(Quoted(false), line).NoMatch?
    ensures Search(Named("name"), line).Matched? ==>
      NameOf(line) == Some(ListItems(Search(Named("name"), line).group.value)[0])
    ensures Search(Named("name"), line).NoMatch? && Search(Quoted(false), line).Matched? ==>
      NameOf(line) == Some(ListItems(Search(Quoted(false), line).group.value)[0])
  {
    MatchResultFound(NameArg, line);
    assert NameArg[0] == Named("name") && NameArg[1] == Quoted(false);
    if Search(Named("name"), line).Matched? {
      assert Search(NameArg[0], line).Matched?;
    } else if Search(Quoted(false), line).Matched? {
      assert Search(NameArg[1], line).Matched?;
    }
  }

  /** What `parseModel` makes of one extracted block, as an entry for `Object.fromEntries`. */
  function ModelOutcome(x: ExtractedModel): Result<Option<(string, ModelAst)>> {
    match ParseModelSpec(x)
    case Err(f) => Err(f)
    case Ok(m) => Ok(Some((x.name, m)))
  }

  /** The outcomes of `parseModel` on each extracted block. */
  function ModelOutcomes(xs: seq<ExtractedModel>): (os: seq<Result<Option<(string, ModelAst)>>>)
    ensures |os| == |xs|
  {
    seq(|xs|, i requires 0 <= i < |xs| => ModelOutcome(xs[i]))
  }

  /** `Object.fromEntries(extractModels(content).map((m) => parseModel(m)))`, from the extracted blocks. */
  function ParseModels(xs: seq<ExtractedModel>): (r: Result<OMap<ModelAst>>)
    ensures r.Ok? ==> Valid(r.value)
  {
    match Collect(ModelOutcomes(xs))
    case Err(f) => Err(f)
    case Ok(pairs) => Ok(FromEntries(pairs))
  }

  /** The models dictionary is built exactly when every block parses. */
  lemma ParseModelsFails(xs: seq<ExtractedModel>)
    ensures ParseModels(xs).Err? <==> exists i :: 0 <= i < |xs| && ParseModelSpec(xs[i]).Err?
    ensures ParseModels(xs).Err? ==> ParseModels(xs).fault == TypeError
  {
    var os := ModelOutcomes(xs);
    CollectErr(os);
    forall i | 0 <= i < |xs| ensures os[i].Err? <==> ParseModelSpec(xs[i]).Err? {
      assert os[i] == ModelOutcome(xs[i]);
    }
    assert ParseModels(xs).Err? <==> Collect(os).Err?;
    if Collect(os).Err? {
      var j :| 0 <= j < |os| && os[j] == Err(Collect(os).fault) && forall k :: 0 <= k < j ==> os[k].Ok?;
      assert os[j] == ModelOutcome(xs[j]);
      assert ParseModels(xs).fault == Collect(os).fault;
    }
  }

  /**
   * A models dictionary as the parser leaves it: every key listed once, each
   * model stored under its own name, and each field under its own name.
   */
  ghost predicate WellFormed(models: OMap<ModelAst>) {
    && Valid(models)
    && (forall k :: k in models.entries ==> models.entries[k].name == k)
    && (forall k :: k in models.entries ==> Valid(models.entries[k].fields))
    && (forall k, f :: k in models.entries && f in models.entries[k].fields.entries ==>
          models.entries[k].fields.entries[f].name == f)
  }

  /** One parsed block satisfies what `WellFormed` asks of a model, under its own name. */
  lemma ParsedModelWellFormed(x: ExtractedModel)
    requires ParseModelSpec(x).Ok?
    ensures var m := ParseModelSpec(x).value;
      m.name == x.name && Valid(m.fields) && forall f :: f in m.fields.entries ==> m.fields.entries[f].name == f
  {
    var ls := Lines(x.content);
    var rs := Reads(ls);
    forall i | 0 <= i < |rs| && rs[i].FieldLine? ensures rs[i].key == rs[i].definition.name {
      ReadAt(ls, i);
    }
    forall f | f in ParseModelSpec(x).value.fields.entries ensures ParseModelSpec(x).value.fields.entries[f].name == f {
      AssembleNames(x.name, rs, f);
    }
  }

  /** The parser's models dictionary is well formed, and keyed by exactly the names of the blocks. */
  lemma ParseModelsWellFormed(xs: seq<ExtractedModel>)
    requires ParseModels(xs).Ok?
    ensures WellFormed(ParseModels(xs).value)
    ensures forall k :: k in ParseModels(xs).value.entries <==> exists i :: 0 <= i < |xs| && xs[i].name == k
  {
    var os := ModelOutcomes(xs);
    var pairs := Collect(os).value;
    var models := FromEntries(pairs);
    assert forall i :: 0 <= i < |xs| ==> os[i] == ModelOutcome(xs[i]);
    forall k | k in models.entries
      ensures models.entries[k].name == k && Valid(models.entries[k].fields)
      ensures forall f :: f in models.entries[k].fields.entries ==> models.entries[k].fields.entries[f].name == f
      ensures exists i :: 0 <= i < |xs| && xs[i].name == k
    {
      FromEntriesFrom(pairs, k);
      var j :| 0 <= j < |pairs| && pairs[j] == (k, models.entries[k]);
      CollectMembers(os, pairs[j]);
      var i :| 0 <= i < |os| && os[i] == Ok(Some(pairs[j]));
      ParsedModelWellFormed(xs[i]);
    }
    forall k | exists i :: 0 <= i < |xs| && xs[i].name == k ensures k in models.entries {
      var i :| 0 <= i < |xs| && xs[i].name == k;
      ParseModelsFails(xs);
      var p := (k, ParseModelSpec(xs[i]).value);
      CollectMembers(os, p);
    }
  }
}
