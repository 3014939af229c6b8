# prismflow schema parser and relation inference, in Dafny

prismflow reads a Prisma schema and draws its models and the relations
between them. This project models the part that turns the text of the
`model Name { ... }` blocks into records and then infers the relation
graph. The repository holds two independent versions of that pipeline, and
they are modelled separately, each as its code is written:

- **Version 1** is `src/lib/getParsedModels.ts` plus `src/lib/getRelations.ts`.
  - `parseModel` reads each block into a `ModelData` record. The record holds:
    - fields keyed by name;
    - a derived `primaryKey`;
    - a `foriegnKeys` list, whose fields get their `isForiegnKey` flag raised afterwards.
  - `getParsedModels` maps every block name to its record.
  - `getRelations` walks every field of every model. It classifies self relations (`self-one-one`, `self-one-many`) and cross relations (`one-one`, then `one-many`, then `many-many-implicit`). It pushes each relation whose canonical id is new and throws `invalid schema` on a malformed self relation.
- **Version 2** is `parser` in `src/lib/parser.ts`.
  - Its inner `parseModel` builds a `SchemaAST` model. The model holds `blockAttributes` and field definitions with attribute lists and list-valued relation arguments.
  - Its relation pass classifies relations as `self-o-o`, `self-o-m`, `self-m-m-i`, `o-o`, `o-m` and `m-m-i`. Self relations get an id of their own.

Modules, one concern each:

| module | what it holds |
|---|---|
| `Results` | `Option` (JavaScript `null`/`undefined` as `None`), `Result` with the two faults the code raises (`InvalidSchema` for `throw new Error("invalid schema")`, `TypeError` for reading a property of `undefined`), and truthiness of an optional string |
| `Text` | ECMAScript `trim`, `split`, `join`, `startsWith`/`endsWith`/`includes`, `replace` of a first occurrence, and the string order `Array.prototype.sort` uses |
| `Patterns` | the few regular-expression shapes the code uses, as a leftmost search, never as a regex engine |
| `OrderedMap` | a JavaScript object used as a dictionary: keys in insertion order, `Object.fromEntries`, `Object.values` |
| `Dedup` | the "push if the id is new" discipline of both relation passes, as `KeepFirst` over the list of candidates |
| `Offers`, `Lists` | folds over what each loop turn offers (a value, nothing, or a throw) |
| `ParsedModels` | `src/lib/getParsedModels.ts` |
| `RelationInference` | `src/lib/getRelations.ts` |
| `SchemaParser` | the model half of `src/lib/parser.ts` (lines 26-92) |
| `SchemaRelations` | the relation half of `src/lib/parser.ts` (lines 93-291, 310-315) and `parser` as a whole |

Each imperative loop of the code is a `method`, proved equal to a function
of its inputs. Properties of that function are then proved as lemmas:
- `ParsedModels.ParseModel` is the two `forEach` loops of `parseModel`.
- `RelationInference.GetRelations` is the nested loops of `getRelations` and `handleRelations`.
- `SchemaParser.ParseModel` is the line `map` of `parseModel`, which pushes to `blockAttributes`.
- `SchemaRelations.Relations` is the nested loops of the second pass.

Both relation passes keep the same loop invariant: the seen-id set equals the set of ids in the list, and no id appears twice.

Two behaviours of the code are worth knowing before reading the model:
- Blank lines inside a model body.
  - `cleanSchema` replaces `/^\s*\n/gm` with `"\n"`, which collapses runs of blank lines but keeps one.
  - Version 1 then drops empty lines (`getParsedModels.ts:74-77`), so blank lines do no harm there.
  - Version 2 does not drop them. A blank or all-white-space line inside a model body has no second word, and `vals[1].replace` throws a `TypeError` (`parser.ts:41-56`). `SchemaParser.BlankLineFails` proves this.
- Block attributes. Version 1 keeps only the composite id's effect on `primaryKey` (`getParsedModels.ts:82-92`); version 2 keeps the text of every `@@` line.
- Field types. Version 1 trims the type after removing `?` and `[]` (`getParsedModels.ts:125`); version 2 does not (`parser.ts:56`), and splits words on spaces only, so a type word such as `User\t` keeps its tab (`ParsedModels.BaseTypeTrims`, `SchemaParser.TypeKeepsWhiteSpace`).

## Model

| member | source | states |
|---|---|---|
| Text.Sort2 | src/lib/getRelations.ts:261 | the pair comes back in ascending string order and holds the same two strings |
| Text.Sort2Symmetric | src/lib/getRelations.ts:261 | sorting a pair does not depend on the order it was given in |
| Text.SortedPairUnique | src/lib/getRelations.ts:261 | two strings have exactly one ascending arrangement |
| Text.JoinSplit | src/lib/getParsedModels.ts:86-89 | joining the pieces of a split with the separator gives the string back |
| Text.SplitJoin | src/lib/getParsedModels.ts:86-89 | splitting a join of separator-free pieces gives the pieces back |
| Patterns.SearchLeftmost | src/lib/getParsedModels.ts:42 | a search finds nothing exactly when no position matches, and otherwise returns the match at the leftmost matching position |
| Patterns.EndingMatchesEndsWith | src/lib/getParsedModels.ts:14-15 | the `\?$` and `\[\]$` searches match exactly when the text ends with the suffix |
| Patterns.FirstMatchedFirst | src/lib/parser.ts:46-50 | the first successful match of a pattern list is absent exactly when every pattern fails, and otherwise comes from a pattern before which all fail |
| OrderedMap.Put | src/lib/getParsedModels.ts:123 | assignment to an object key: the entry is replaced and a new key is appended at the end, an existing one keeps its place |
| OrderedMap.PutValid | src/lib/getParsedModels.ts:123 | assignment keeps every key listed once |
| OrderedMap.Values | src/lib/getRelations.ts:13 | `Object.values` lists the entries in key order |
| OrderedMap.ValuesHeld | src/lib/getRelations.ts:19 | every entry is among the values and every value is an entry |
| OrderedMap.FromEntries | src/lib/getParsedModels.ts:5-7 | `Object.fromEntries` gives a dictionary whose keys are exactly the keys of the pairs |
| OrderedMap.FromEntriesLastWins | src/lib/getParsedModels.ts:5-7 | the value of a key is that of its last pair |
| OrderedMap.FromEntriesFrom | src/lib/parser.ts:86 | every entry comes from one of the pairs |
| Dedup.AddIfNewIds | src/lib/getRelations.ts:29-31 | a guarded push adds the relation's id to the id set and keeps the ids pairwise distinct |
| Dedup.AddAllIds | src/lib/getRelations.ts:124-146 | after any run of guarded pushes, the ids are those of the start plus those offered, still pairwise distinct |
| Dedup.KeepFirstKeepsFirst | src/lib/parser.ts:117-132 | a candidate whose id no earlier candidate has is in the result |
| ParsedModels.SingleMatcher | src/lib/getParsedModels.ts:39-55 | an empty blob gives no match; a single regex gives the match of its own search |
| ParsedModels.SingleMatcherFirst | src/lib/getParsedModels.ts:39-55 | on a non-empty blob, no match exactly when no pattern matches, and otherwise the match of a pattern before which all fail |
| ParsedModels.ExtractRelationData | src/lib/getParsedModels.ts:57-65 | relation data exactly when the text contains `relation`; foreign key, references and name are each the capture of their own regex (`fields:[...]`, `references:[...]`, the first quoted text), present exactly when it matches; the foreign key and references are non-empty captures without `]`, the name a capture without `"` |
| ParsedModels.Lines | src/lib/getParsedModels.ts:74-77 | a line is kept exactly when it is non-empty after trimming, and it is kept trimmed |
| ParsedModels.FieldTokensShape | src/lib/getParsedModels.ts:98-102 | the first token holds no `@`, every later one is `@` followed by a non-empty text without `@` |
| ParsedModels.Declaration | src/lib/getParsedModels.ts:98-107 | reading the name and type succeeds exactly when the first token has at least two words, fails only with a `TypeError`, and takes the name and type as the first two words; the line's tokens are kept |
| ParsedModels.DeclarationWords | src/lib/getParsedModels.ts:104-107 | a declared name and type are non-empty single words |
| ParsedModels.InterpretLine | src/lib/getParsedModels.ts:81-149 | a line is a block attribute iff it starts with `@@`, malformed iff it has no name and type; optional iff its type ends in `?`, iterable iff in `[]`; `@id`/`@unique` tokens recorded exactly; relation data iff the first attribute token contains `relation` |
| ParsedModels.FieldOf | src/lib/getParsedModels.ts:123-147 | the stored field has the line's name, is not yet a foreign key, is a primary key iff the key is set, and is a relation iff it has relation data |
| ParsedModels.Step | src/lib/getParsedModels.ts:81-150 | a loop turn fails exactly on a malformed line, with a `TypeError`; a `@@` line stores no field and no foreign key |
| ParsedModels.FieldLineStep | src/lib/getParsedModels.ts:109-148 | `@id` sets the key to the field, `@unique` only while it is empty, a set key stays set; the field is stored under its name, flagged primary key iff the key is set; a truthy `fields:[...]` capture is appended to the foreign keys |
| ParsedModels.ParseLinesOk | src/lib/getParsedModels.ts:81-150 | the line loop succeeds exactly when no line is malformed |
| ParsedModels.ParseLinesKeys | src/lib/getParsedModels.ts:81-150 | the stored keys are exactly the names the field lines declare, each under its own name, none yet a foreign key |
| ParsedModels.ParseLinesValid | src/lib/getParsedModels.ts:81-150 | the line loop leaves every key listed once |
| ParsedModels.ParseLinesForeignKeys | src/lib/getParsedModels.ts:81-150 | the foreign keys the line loop gathers are the truthy `fields:[...]` captures of its field lines, in line order, repeats kept |
| ParsedModels.LastDeclarationWins | src/lib/getParsedModels.ts:123-147 | a name declared again later is stored with its last declaration |
| ParsedModels.MarkAllFlags | src/lib/getParsedModels.ts:154-156 | the foreign-key loop succeeds exactly when every listed key names a field, keeps the keys in order, and raises the flag of exactly the listed fields |
| ParsedModels.ParseModelSpec | src/lib/getParsedModels.ts:67-158 | `parseModel` fails only with a `TypeError`, and otherwise keeps the block's name and a dictionary with each key listed once |
| ParsedModels.VisitLine | src/lib/getParsedModels.ts:81-150 | the `forEach` callback updates fields, primary key and foreign keys as one loop turn says |
| ParsedModels.Finish | src/lib/getParsedModels.ts:81-158 | running both loops over interpreted lines fails only with a `TypeError`, and otherwise keeps the given name and a dictionary with each key listed once |
| ParsedModels.FinishKeys | src/lib/getParsedModels.ts:81-156 | the fields of a finished model are exactly the names its field lines declare |
| ParsedModels.ReadFields | src/lib/getParsedModels.ts:81-150 | the line `forEach` computes the line loop over the lines' interpretations, and stops at the first malformed line |
| ParsedModels.MarkForeignKeys | src/lib/getParsedModels.ts:152-156 | the foreign-key `forEach` computes the flag-raising loop, and throws at the first name that is not a field |
| ParsedModels.ParseModel | src/lib/getParsedModels.ts:67-158 | the two loops of `parseModel` compute `ParseModelSpec` |
| ParsedModels.CompositeIdMatch | src/lib/getParsedModels.ts:13 | `@@id([a,b])`, names free of `,` and `]`, matches the composite-id patterns with the group `a,b` |
| ParsedModels.CompositeIdJoined | src/lib/getParsedModels.ts:82-90 | `@@id([a,b])` sets the primary key to the names, each trimmed, joined with `_` |
| ParsedModels.CompositeFieldsSearch | src/lib/getParsedModels.ts:13 | `@@id(fields:[g])` is not matched by the first composite-id regex and is matched by the second with group `g` |
| ParsedModels.CompositeFieldsMatch | src/lib/getParsedModels.ts:13 | `@@id(fields:[a,b])`, names free of `,`, `]` and `@`, matches the composite-id patterns with the group `a,b` |
| ParsedModels.CompositeFieldsJoined | src/lib/getParsedModels.ts:82-90 | `@@id(fields:[a,b])` sets the primary key to the names, each trimmed, joined with `_` |
| ParsedModels.JoinedKey | src/lib/getParsedModels.ts:86-89 | splitting comma-joined names on `,` and trimming gives the names back, each trimmed |
| ParsedModels.TypeDecorationRoundTrip | src/lib/getParsedModels.ts:114-131 | for a type `T` without `?` or `[`, the tokens `T`, `T?` and `T[]` all have base type `T` trimmed |
| ParsedModels.UndecoratedRoundTrip | src/lib/getParsedModels.ts:125 | for a type `T` without `?` or `[`, removing the first `?` and then the first `[]` from `T`, `T?` and `T[]` gives `T`; only `T?` ends in `?`, only `T[]` in `[]` |
| ParsedModels.BaseTypeTrims | src/lib/getParsedModels.ts:125 | a trimmed type followed by one white-space character has that type as its base type |
| ParsedModels.ForeignKeyFlags | src/lib/getParsedModels.ts:148-156 | for any interpreted lines, a finished model flags exactly the fields named in `foriegnKeys` as foreign keys, whatever the declaration order, stores each field under its own name, and, once the line loop has succeeded, is built exactly when every such name is a field |
| ParsedModels.FieldKeys | src/lib/getParsedModels.ts:74-134 | the fields of a parsed model are exactly the names declared by its non-`@@` lines |
| ParsedModels.PairUp | src/lib/getParsedModels.ts:5-7 | given the parses of the blocks, the pairs are built exactly when every parse succeeded, one `(name, record)` per block in order |
| ParsedModels.ParseAll | src/lib/getParsedModels.ts:5-7 | the pairs are built exactly when every block parses, one `(name, record)` per block in order |
| ParsedModels.GetParsedModels | src/lib/getParsedModels.ts:3-8 | the result exists exactly when every block parses; its keys are exactly the block names |
| ParsedModels.GetParsedModelsLastWins | src/lib/getParsedModels.ts:3-8 | a name maps to the record of its last block |
| RelationInference.GenerateRelId | src/lib/getRelations.ts:260-262 | the id is the two model names in ascending order and then the two field names in ascending order, joined with `-` |
| RelationInference.GenerateRelIdSymmetric | src/lib/getRelations.ts:260-262 | swapping the model names or the field names gives the same id |
| RelationInference.OrElse | src/lib/getRelations.ts:60-63 | `a ?? b` is `a` when present and `b` otherwise |
| RelationInference.FindPartner | src/lib/getRelations.ts:54-56 | a found partner has the same relation name and another field name |
| RelationInference.FindPartnerFirst | src/lib/getRelations.ts:54-56 | no partner exactly when no field qualifies, and otherwise the first that does |
| RelationInference.SelfKindSymmetric | src/lib/getRelations.ts:70-95 | the self-relation kind does not depend on which of the two fields comes first |
| RelationInference.HandleSelfRelations | src/lib/getRelations.ts:48-117 | it fails only with `invalid schema`; a result is a self kind between the model and itself, named by the relation name |
| RelationInference.SelfRelationNeedsPartner | src/lib/getRelations.ts:54-58 | with no other field of the same relation name it throws |
| RelationInference.SelfRelationPaired | src/lib/getRelations.ts:60-116 | with the first partner found, it succeeds exactly when the optional/iterable pair has a self kind and both keys are truthy; `from`/`to` are the keys and the id is generated from them |
| RelationInference.FindBackRef | src/lib/getRelations.ts:163-164 | a found parent field has the child's type and the asked iterability |
| RelationInference.FindBackRefFirst | src/lib/getRelations.ts:163-201 | no parent field exactly when none qualifies, and otherwise the first that does |
| RelationInference.KeyedRelation | src/lib/getRelations.ts:165-181 | `from` is (parent, references), `to` is (child, foreign key) |
| RelationInference.HandleOneOne | src/lib/getRelations.ts:149-184 | a one-one relation needs both keys, and is the keyed relation from the parent to the child |
| RelationInference.HandleOneMany | src/lib/getRelations.ts:186-222 | a one-many relation needs both keys, and is the keyed relation from the parent to the child |
| RelationInference.HandleManyManyImplicit | src/lib/getRelations.ts:224-257 | a many-many-implicit relation needs an iterable child field and an iterable back reference; it runs from the first such parent field to the child field, has the generated id, and is named by the relation name or `""` |
| RelationInference.HandlersAnswer | src/lib/getRelations.ts:149-257 | one-one answers iff both keys and a non-iterable back reference exist; one-many iff both keys and an iterable one; many-many-implicit iff the child field is iterable and an iterable back reference exists |
| RelationInference.CrossRelation | src/lib/getRelations.ts:119-147 | a cross relation lies between parent and child and is one-one, one-many or many-many-implicit |
| RelationInference.CrossRelationKinds | src/lib/getRelations.ts:119-257 | one-one iff keys and a non-iterable back reference; one-many iff keys, no such one, and an iterable one; many-many-implicit iff neither and both sides iterable |
| RelationInference.CrossRelationEnds | src/lib/getRelations.ts:149-257 | keyed kinds run from (parent, references) to (child, foreign key); many-many-implicit runs from the first iterable parent field to the child field and is named by the child field's relation name, `""` when it has none; ids as generated |
| RelationInference.Visit | src/lib/getRelations.ts:21-43 | a field visit throws only for a self-typed field, with `invalid schema` |
| RelationInference.UnknownTypeIgnored | src/lib/getRelations.ts:22-34 | a field whose type is neither its own model nor any model offers nothing |
| RelationInference.UnnamedSelfFieldFails | src/lib/getRelations.ts:25-26 | a self-typed field without a truthy relation name throws |
| RelationInference.GetRelationsFailsIf | src/lib/getRelations.ts:11-46 | a field whose visit throws makes `getRelations` throw |
| RelationInference.GetRelationsFailsOnlyIf | src/lib/getRelations.ts:11-46 | `getRelations` throws only when some field visit throws |
| RelationInference.GetRelationsSound | src/lib/getRelations.ts:11-46 | every returned relation is offered by some field |
| RelationInference.GetRelationsComplete | src/lib/getRelations.ts:11-46 | the id of every offered relation is among the returned ids |
| RelationInference.HandleRelations | src/lib/getRelations.ts:119-147 | the first cross kind found is pushed if its id is new, and the id set stays the ids of the list |
| RelationInference.VisitField | src/lib/getRelations.ts:21-43 | one field visit throws exactly when its specification does, and otherwise pushes what it offers if its id is new |
| RelationInference.VisitModel | src/lib/getRelations.ts:18-44 | visiting one model's fields in order throws exactly when its specification does, and otherwise pushes its relations whose ids are new |
| RelationInference.GetRelations | src/lib/getRelations.ts:11-46 | the nested loops compute `GetRelationsSpec`, and the result has pairwise-distinct ids |
| SchemaParser.ListItems | src/lib/parser.ts:49 | a capture splits into at least one item, every item trimmed |
| SchemaParser.ListItemsJoin | src/lib/parser.ts:49 | the items of comma-free texts joined with `,` are those texts, each trimmed |
| SchemaParser.FirstItemsFound | src/lib/parser.ts:45-52 | the list is non-empty exactly when some pattern matched, and is then the items of the first match |
| SchemaParser.MatchResultFound | src/lib/parser.ts:45-52 | `getMatchResult` is non-empty exactly when some regex matches the line, and then holds the items of the first regex that does |
| SchemaParser.NameOf | src/lib/parser.ts:77 | the relation name is present exactly when the name search gives items, and is the first of them |
| SchemaParser.RelationNameFallback | src/lib/parser.ts:77 | the name comes from `name: "..."`, else from the first quoted string, and is undefined when neither matches |
| SchemaParser.SingleMatchResult | src/lib/parser.ts:45-52 | a one-regex `getMatchResult` gives the items of its capture, or `[]` when it does not match |
| SchemaParser.RelationArgsOf | src/lib/parser.ts:65-78 | `fields`, `references` and `map` are the items of the bracket after their key inside `@relation(...)`, `onUpdate` and `onDelete` the word after their key, each `[]` without a match; the name is present exactly when the name search gives items |
| SchemaParser.Filled | src/lib/parser.ts:41-43 | exactly the pieces holding more than white space are kept |
| SchemaParser.NotRelation | src/lib/parser.ts:63 | exactly the pieces not starting with `relation` are kept |
| SchemaParser.Attributes | src/lib/parser.ts:59-63 | the attributes are exactly the trimmed `@`-pieces after the first that do not start with `relation` |
| SchemaParser.FieldDefinitionOf | src/lib/parser.ts:54-79 | the definition is named by the first word; optional iff the type word ends in `?` or `[]`, iterable iff in `[]`; a relation iff the line contains `@relation`; its relation arguments are read off the line |
| SchemaParser.TypeTokenFlags | src/lib/parser.ts:56-58 | for any type `T` without `?` or `[`: `T` is neither optional nor iterable, `T?` is optional only, `T[]` is optional and iterable, all with `dType` `T`, untrimmed |
| SchemaParser.TypeKeepsWhiteSpace | src/lib/parser.ts:56 | a type word ending in white space, such as `User\t`, keeps it in `dType` |
| SchemaParser.ReadLine | src/lib/parser.ts:36-80 | a line is a block attribute iff it starts with `@@` after trimming, unreadable iff otherwise it has fewer than two words, and a field line is keyed by its definition's name |
| SchemaParser.BlankLineUnreadable | src/lib/parser.ts:41-56 | a blank line has no words, so reading its type throws |
| SchemaParser.BlockAttributeKept | src/lib/parser.ts:37-38 | a `@@` line without an inner `\r` is stored as its trimmed text |
| SchemaParser.Assemble | src/lib/parser.ts:34-87 | building a model fails only with a `TypeError`, and keeps the block's name |
| SchemaParser.VisitLine | src/lib/parser.ts:36-81 | the `map` callback pushes a block attribute's text and returns the line's entry |
| SchemaParser.ReadModelLines | src/lib/parser.ts:34-87 | the line loop computes `Assemble` of the lines' reads |
| SchemaParser.ParseModel | src/lib/parser.ts:26-88 | `parseModel` computes `ParseModelSpec` |
| SchemaParser.AssembleFails | src/lib/parser.ts:34-82 | building a model fails exactly when some line is unreadable |
| SchemaParser.BlankLineFails | src/lib/parser.ts:34-56 | a blank line anywhere in a model body makes `parseModel` throw a `TypeError` |
| SchemaParser.AssembleAttributes | src/lib/parser.ts:37-40 | the block attributes are exactly the texts of the `@@` lines |
| SchemaParser.AssembleKeys | src/lib/parser.ts:80-86 | the field keys are exactly the keys of the field lines |
| SchemaParser.AssembleNames | src/lib/parser.ts:80-86 | every field is stored under its own name |
| SchemaParser.AssembleLastWins | src/lib/parser.ts:86 | a key declared again later is stored with its last definition |
| SchemaParser.ParseModels | src/lib/parser.ts:90-92 | the model dictionary lists every key once |
| SchemaParser.ParseModelsFails | src/lib/parser.ts:90-92 | the models are built exactly when every block parses; the failure is a `TypeError` |
| SchemaParser.ParsedModelWellFormed | src/lib/parser.ts:26-88 | a parsed model keeps its block name and stores every field under its own name |
| SchemaParser.ParseModelsWellFormed | src/lib/parser.ts:90-92 | the models are well formed, and their keys are exactly the block names |
| SchemaRelations.GenerateSelfRelId | src/lib/parser.ts:313-315 | the id is the model name and then the two field names in ascending order, joined with `-` |
| SchemaRelations.GenerateSelfRelIdSymmetric | src/lib/parser.ts:313-315 | swapping the field names gives the same id |
| SchemaRelations.SelfRelation | src/lib/parser.ts:114-161 | a self relation lies between the model and itself, is named by the field's relation name, and has the self id of the two field names |
| SchemaRelations.SelfKinds | src/lib/parser.ts:116-161 | `self-o-o` iff neither field is iterable, `self-o-m` iff exactly one is, `self-m-m-i` iff both are; `self-o-o` runs from the partner to the field, the others the other way |
| SchemaRelations.SelfRelationMirrored | src/lib/parser.ts:111-115 | partnership is symmetric, and a pair and its mirror give the same id and kind |
| SchemaRelations.SelfOffer | src/lib/parser.ts:111-113 | a field offers a self relation with exactly the other fields of the same relation name, two undefined names counting as equal |
| SchemaRelations.CrossKind | src/lib/parser.ts:181-287 | with `fields` and `references`: `o-m` iff the reciprocal is iterable, else `o-o`; without them: `o-o` iff neither is iterable, `o-m` iff only this field is, `m-m-i` iff both are, nothing iff only the reciprocal is |
| SchemaRelations.CrossOffer | src/lib/parser.ts:167-289 | a reciprocal field offers a cross relation exactly when it has this model's type, its name agrees and `CrossKind` gives a kind; the relation has that kind and the agreed name, lies between this model and the related one, runs from the reciprocal to this field, and has the generated id |
| SchemaRelations.CrossRelationMirrored | src/lib/parser.ts:173-176 | a pair of reciprocal fields seen from either model gives the same id |
| SchemaRelations.CrossRelationNamed | src/lib/parser.ts:177-184 | with a truthy relation name the reciprocal has it too and the relation is named by it; without one the relation has no truthy name |
| SchemaRelations.NonRelationIgnored | src/lib/parser.ts:98-108 | a field without `@relation`, or whose type is no model, offers nothing |
| SchemaRelations.Push | src/lib/parser.ts:117-132 | a push guarded by `relIds` adds the relation only if its id is new, and the id set stays the ids of the list |
| SchemaRelations.SelfRelations | src/lib/parser.ts:109-165 | the self loop pushes every partner's relation whose id is new, in field order |
| SchemaRelations.CrossStep | src/lib/parser.ts:168-288 | one turn of the cross loop pushes the reciprocal's relation exactly when it offers one whose id is new, and keeps the id set in step |
| SchemaRelations.CrossRelations | src/lib/parser.ts:167-289 | the cross loop pushes every reciprocal's relation whose id is new, in field order |
| SchemaRelations.VisitField | src/lib/parser.ts:97-290 | one field's visit pushes its candidates whose ids are new |
| SchemaRelations.VisitModel | src/lib/parser.ts:96-291 | one model's fields, visited in order, push their candidates whose ids are new |
| SchemaRelations.Relations | src/lib/parser.ts:93-291 | the pass keeps the first candidate of every id, in visit order, and no two relations share an id |
| SchemaRelations.RelationsSound | src/lib/parser.ts:93-291 | every relation of the pass is offered by some field |
| SchemaRelations.RelationsComplete | src/lib/parser.ts:93-291 | the id of every offered relation is among the ids of the pass |
| SchemaRelations.SelfPairOffered | src/lib/parser.ts:109-165 | a self-typed relation field offers its relation with every partner field |
| SchemaRelations.CrossPairOffered | src/lib/parser.ts:167-289 | a relation field typed by another model offers its relation with every reciprocal that qualifies |
| SchemaRelations.Parser | src/lib/parser.ts:5-298 | `parser` throws a `TypeError` exactly when some block fails to parse; otherwise its models are the parsed blocks, well formed, and its relations are those of the pass, with distinct ids |

## Left out

- `cleanSchema` and `extractModels` (getParsedModels.ts:21-37, parser.ts:6-12, 300-308): regular expressions with lazy quantifiers and multi-line anchors. Both versions start from the extracted blocks: `ParsedModels.RawModel` and `SchemaParser.ExtractedModel` hold each block's name and body.
- `extractDbType` and `extractRelationMode` (parser.ts:14-24) are regex scans of the `datasource` block. `SchemaRelations.SchemaAst` therefore has no `dbType` and no `relationMode`.
- Regular expressions in general: `Patterns` covers exactly the pattern shapes the core uses, with their leftmost-match and greedy behaviour, and nothing else.
- A `getMatchResult` match whose capture group is missing: every pattern used has a group that always takes part in a match, so the case cannot arise and is not modelled.
- JavaScript objects as dictionaries: `OrderedMap` keeps insertion order for every key. Integer-like keys, which JavaScript lists first, and keys shadowing `Object.prototype` members (`models[field.dType]` with a type named `constructor`) are not modelled.
- `Array.prototype.sort` compares UTF-16 code units. `Text.Less` compares Unicode scalar values, which orders characters outside the Basic Multilingual Plane differently.
- `null` and `undefined` are both `None`. The code never tells them apart except through `??` and truthiness, which are modelled.
- The message text of `throw new Error("invalid schema")` becomes the fault `InvalidSchema`, and every read of a property of `undefined` becomes `TypeError`.
- RelationInference.GetRelationsComplete: states that the id of an offered relation is in the result, not the relation itself. The first relation with that id is kept instead, as the code does.
- SchemaRelations.RelationsComplete: the same, for the version 2 pass.
- src/lib/getNodesPosition.ts, src/lib/utils.ts, src/app/page.tsx and src/components/flow.tsx are not part of this model. They hold floating-point layout, random handle ids, class-name merging and the React interface.
- src/types/index.ts holds only declarations. It shapes `SchemaParser.FieldDefinition`, `SchemaParser.ModelAst` and `SchemaRelations.Relation`.
