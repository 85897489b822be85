# Movie and actor assistant: intent execution

The service answers a free-text prompt about a small movie database. A language model
turns the prompt into a JSON *intent*: an `action` (`count`, `get`, `create`, `update` or
`delete`), an optional `entityType`, a `query` object and a `payload`. The resolver
`askAI` (in `graphql/schema/resolvers.js`) then works on that intent in order:

1. It parses the intent.
2. It picks the collection (`movies` or `actors`) with `getModel`.
3. It rewrites the query for the document store with `upgradeQuery`. Strings become
   case-insensitive whole-value regexes. A `Genres` or `Genre` string becomes a substring
   regex. The six numeric keys are left as they are.
4. It runs one handler against the store.
5. It answers with a message, the records involved and a *display focus* (`genres`,
   `actors` or `full`) read from the prompt.

Before anything is stored, created records are normalised (`normalizeActorPayload`,
`normalizeMoviePayload`). Movies read back from the store are reshaped by `toMovie`, which
builds `Genres` from the CSV `Genre` text. It also builds `Actors` from a CSV string or a
mixed list.

This project models that core in Dafny, one module per concern:

| file | module | what it holds |
|---|---|---|
| `wrappers.dfy` | `Wrappers` | `Option` and `Result` |
| `text.dfy` | `Text` | JavaScript string operations: `trim`, `split`, `join`, ASCII `toLowerCase`, integer rendering |
| `js.dfy` | `Js` | JavaScript values, truthiness, `Number()`, `String()`, spread, `flat(Infinity)`, the thrown `TypeError` |
| `schema.dfy` | `Schema` | the two mongoose models (`graphql/models/Movie.js`, `graphql/models/Actor.js`) |
| `query.dfy` | `Query` | store filters, regex escaping, `upgradeQuery` |
| `store.dfy` | `Store` | the collections and the class `Database`, with the store operations the handlers use |
| `focus.dfy` | `Focus` | `getDisplayFocus` and the count-question test of `askAI` |
| `resolve.dfy` | `Resolve` | `getModel` |
| `normalize.dfy` | `Normalize` | `normalizeActors`, `toGenres`, `toMovie` and both payload normalisers |
| `handlers.dfy` | `Handlers` | `runCount`, `runGet`, `runCreate`, `runUpdate`, `runDelete` |
| `dispatch.dfy` | `Dispatch` | the `HANDLERS` table and `askAI` |

How the model is built:

- The pure helpers of the source are Dafny functions, and their promises are proved as lemmas.
  These include the round trips, the idempotence of the normalisers, and the iff forms of the
  resolution and focus rules.
- `upgradeQuery` rewrites a fresh copy key by key in a `for … in` loop. It is a method with a
  loop (`Query.EscapeStrings`), proved equal to the function `Query.ExactAll`.
- The document store is a class whose fields are the two collections. Each collection is a
  sequence of documents in natural (insertion) order, and the invariant `Valid()` says that
  `Id` is unique in each, as the `unique: true` index enforces. The store's methods are proved
  against the functions `InsertManyOp`, `UpdateOneOp` and `DeleteManyOp`.
- The handlers that write (`create`, `update`, `delete`) are module-level methods that take
  the store (`db: Database`) and modify it. Each is proved equal to a function of the old
  collections (`CreateEffect`, `UpdateEffect`, `DeleteEffect`) that gives the new collections
  and the reply together, and the promises of the handler are proved about that function.
  The handlers that only read (`count`, `get`) are functions that read the store.
- Anything a handler throws is a `Failure`: a `TypeError` from reading a property of `null`,
  or a store fault. `askAI`'s `catch` turns it into the database-error message.

Behaviour of the code worth knowing, which the model keeps:

- Create merges the `query` fields into the payload only when the payload is not an array.
  Array items are taken as they are.
- A `Genres` query value that is not a string (an array, say) is moved to `Genre` unchanged.
  It is not turned into a substring match. `Genre` is a text path, so the store reads an array
  there as `$in` of its elements: `{"Genres": ["Drama"]}` finds the movies whose `Genre` is
  exactly `Drama`.
- An array for any schema path that is not itself an array (every path but `Genres`) is read
  by the store as `$in` of its cast elements (`Store.ArrayIsIn`). A delete with
  `{"Id": [3, 4]}` passes the identifier guard and removes exactly the movies with those Ids
  (`Handlers.DeleteByIdListIntent`). An empty array matches nothing
  (`Store.EmptyArrayMatchesNothing`).
- Create on a `null` query throws before any store access when the intent's `entityType` is
  not `"actor"`, because `query.entityType` is then read. With `entityType` `"actor"` the test
  stops early and `{...null}` is `{}`, so the create goes ahead. Get, count and delete behave
  the same way. The thrown error becomes the database-error reply.
- A JSON object with its own `toString` key cannot be converted to text or a number. As the
  `Id` of a create item it makes `Number(m.Id)` throw inside the `try`, which gives the
  database-error reply with nothing written (`Handlers.CreateWithUnconvertibleIdThrows`). As
  the `action` it makes `HANDLERS[action]` throw outside both `try` blocks
  (`Dispatch.AskAIAsWritten`).
- A query with `Genre: null` (and no non-null `Genres` to replace it) throws inside
  `upgradeQuery`: the rewriting loop reads `out[key].$regex` because `typeof null` is
  `"object"`. Every handler but create then gives the database-error reply, and nothing is
  written (`Query.NullGenreThrows`).
- After an update, the movie message shows `Year` and `Rating` only when they are truthy, so a
  stored `0` is left out.
- The delete branch that reports "I deleted all …" can never run. The identifier guard already
  needs a key in the rewritten query, so the query is never empty there
  (`Handlers.IdentifierMeansNonEmpty`). This is dead code, not a wrong result.
- The `a.name` fallback of `normalizeActorPayload` is dead when `runCreate` calls it, because the
  actor test needs `x.Name`. The `m.title` fallback of the movie normaliser is reachable.

## Model

| member | source | states |
|---|---|---|
| Text.Lower | graphql/schema/resolvers.js:11 | the lower-cased prompt has the same length, and each character is its ASCII lower-case form |
| Text.LowerIdempotent | graphql/schema/resolvers.js:11 | lower-casing twice is lower-casing once |
| Text.TrimStartFacts | graphql/schema/resolvers.js:53 | `trimStart` drops exactly a blank prefix and then starts with a non-space |
| Text.TrimEndFacts | graphql/schema/resolvers.js:53 | `trimEnd` drops exactly a blank suffix and then ends with a non-space |
| Text.Trim | graphql/schema/resolvers.js:53 | `trim()` is empty exactly when the text is blank, and the result has no white space at either end |
| Text.TrimIsSlice | graphql/schema/resolvers.js:53 | `trim()` is a contiguous slice of the input with only white space around it |
| Text.TrimOfTrimmed | graphql/schema/resolvers.js:71 | trimming text that is already trimmed changes nothing |
| Text.TrimIdempotent | graphql/schema/resolvers.js:135 | `trim()` is idempotent |
| Text.Split | graphql/schema/resolvers.js:52 | `split(",")` gives at least one part, and no part holds the separator |
| Text.JoinSplit | graphql/schema/resolvers.js:52 | joining the parts of a split with the separator gives back the text |
| Text.SplitJoin | graphql/schema/resolvers.js:71 | splitting a join of separator-free parts gives back the parts |
| Text.NatToString | graphql/schema/resolvers.js:96 | a rendered count is a non-empty run of digits with no leading zero |
| Text.NatToStringRoundTrip | graphql/schema/resolvers.js:96 | the digits of a rendered count read back as the count |
| Text.NatToStringInjective | graphql/schema/resolvers.js:96 | different counts render differently |
| Text.LeadingDigits | graphql/schema/resolvers.js:265 | the length of the run of digits a text opens with: that prefix is all digits and the next character is not one |
| Text.LeadingDigitsOf | graphql/schema/resolvers.js:265 | a numeral followed by a space opens with exactly its own digits |
| Js.Prop | graphql/schema/resolvers.js:41 | reading a property throws exactly when the value is `null` or `undefined`, and otherwise gives the field |
| Js.StringToNumber | graphql/schema/resolvers.js:133 | `Number(text)` is always a number, and blank text is `0` |
| Js.ToNumber | graphql/schema/resolvers.js:141 | `Number(v)` is always a number, and leaves a number unchanged; where the conversion throws (`Js.ConversionThrows`) callers test for the throw first |
| Js.ConversionThrowsIsNaN | graphql/schema/resolvers.js:141 | a value whose conversion throws (an object with its own `toString` key, or an array that renders one) has `NaN` as its number, so the value-level normalisers reject it |
| Js.ToNumberIdempotent | graphql/schema/resolvers.js:62 | `Number(Number(v))` is `Number(v)` |
| Js.NumberOfRenderedInteger | graphql/schema/resolvers.js:62 | `Number` of an integer's decimal rendering is that integer |
| Js.IndexKeyed | graphql/schema/resolvers.js:161 | spreading an array gives an object keyed by every index |
| Js.FlatFrom | graphql/schema/resolvers.js:161 | `flat(Infinity)` leaves no array among the elements |
| Js.FlatOfFlatList | graphql/schema/resolvers.js:161 | `flat(Infinity)` of a list without nested arrays is that list |
| Schema.Other | graphql/schema/resolvers.js:40-45 | there are exactly two collections, and each has a different partner |
| Schema.NumericPaths | graphql/models/Movie.js:3-16 | every model stores `Id` as a number, and its number paths are schema paths |
| Schema.RequiredText | graphql/models/Actor.js:3-6 | the required text path (`Title`, `Name`) is a path of the model |
| Query.Escape | graphql/schema/resolvers.js:26 | escaping gives a pattern where every regex special character is preceded by a backslash |
| Query.UnescapeEscape | graphql/schema/resolvers.js:35 | the escaped pattern matches the original text literally: unescaping it gives the text back |
| Query.EscapeUnescape | graphql/schema/resolvers.js:30 | every literal pattern is the escape of exactly one text |
| Query.AsFilter | graphql/schema/resolvers.js:20 | the filter has the query's own keys, each matched by equality |
| Query.ExactPatternMatches | graphql/schema/resolvers.js:35 | `^escaped$` with flag `i` matches a string exactly when the two are equal ignoring case |
| Query.ContainsPatternMatches | graphql/schema/resolvers.js:26 | the escaped genre pattern with flag `i` matches exactly the strings that contain the genre, ignoring case |
| Query.GenreCond | graphql/schema/resolvers.js:22-31 | a genre string becomes a case-insensitive substring match of its trimmed text; anything else is kept |
| Query.ExactCond | graphql/schema/resolvers.js:32-36 | a string under a non-numeric key becomes an exact case-insensitive match; anything else is kept |
| Query.Upgraded | graphql/schema/resolvers.js:19-38 | `Genres` moves to `Genre` when it is not nullish, the genre becomes a substring match, every other string key becomes an exact match, and all other keys stay as they are; it throws a `TypeError` exactly when `Genre` is then `null` |
| Query.ExactAll | graphql/schema/resolvers.js:32-36 | the loop's target: the same keys, each rewritten by the exact-match rule |
| Query.UpgradeQuery | graphql/schema/resolvers.js:19-38 | the method computes `upgradeQuery`, including the `TypeError` it throws |
| Query.EscapeStrings | graphql/schema/resolvers.js:32-36 | the `for … in` loop rewrites every key by the exact-match rule, and throws a `TypeError` exactly when `Genre` is `null` |
| Query.UpgradedIdempotent | graphql/schema/resolvers.js:19-38 | upgrading an upgraded query changes nothing |
| Query.UpgradedEmpty | graphql/schema/resolvers.js:105 | the upgraded query is empty exactly when the query is |
| Query.NullGenreThrows | graphql/schema/resolvers.js:29-33 | a `Genre: null` that no `Genres` replaces makes `upgradeQuery` throw a `TypeError` |
| Focus.SpaceRunEnd | graphql/schema/resolvers.js:13 | `\s+` consumes exactly the maximal run of white space |
| Focus.DisplayFocus | graphql/schema/resolvers.js:9-17 | the focus is one of three values: `genres` exactly when a genre word occurs and no actor word does, `actors` exactly when it is not genres and an actor phrase occurs, `full` otherwise and for the empty prompt |
| Focus.DisplayFocusIgnoresCase | graphql/schema/resolvers.js:11 | the focus does not depend on letter case |
| Focus.ActorWordRulesOutGenres | graphql/schema/resolvers.js:12-15 | a prompt with the word actor, actors or cast always gets focus `actors` |
| Focus.GenreWordGivesGenres | graphql/schema/resolvers.js:12-14 | a prompt with the word genre or genres and no actor word gets focus `genres` |
| Focus.IsCountQuery | graphql/schema/resolvers.js:304-306 | a count question has a count phrase and no listing word, ignoring case |
| Focus.TotalCountImpliesCount | graphql/schema/resolvers.js:305 | the alternative `total count` adds nothing to `count` |
| Focus.CountQueryIgnoresCase | graphql/schema/resolvers.js:305-306 | the count test does not depend on letter case |
| Resolve.GetModel | graphql/schema/resolvers.js:40-45 | the rules in order: `entityType` or `query.entityType` `"actor"`, an actor-shaped payload, or a name-only query select actors, and everything else selects movies; a `null` query or payload throws, but only when a rule reaches it |
| Resolve.DefaultPayloadResolves | graphql/schema/resolvers.js:40-45 | with the default empty payload, resolution never throws, and it is movies exactly when no actor rule fires |
| Resolve.NameOnlyNeedsSingleKey | graphql/schema/resolvers.js:43 | a query with any other key besides `Name` is not a name-only lookup |
| Normalize.TrimmedParts | graphql/schema/resolvers.js:53-54 | trimming and dropping empty parts leaves only non-empty trimmed parts |
| Normalize.TrimmedPartsKeepNonBlank | graphql/schema/resolvers.js:53-54 | every non-blank part survives, trimmed |
| Normalize.CsvSegments | graphql/schema/resolvers.js:51-54 | each CSV segment is non-empty, trimmed and comma-free |
| Normalize.CsvSegmentsOfJoin | graphql/schema/resolvers.js:51-54 | splitting a comma join of clean names gives back the names |
| Normalize.ActorOf | graphql/schema/resolvers.js:59-65 | a list element is kept exactly when it is a non-empty string or an object with a truthy `Name`, and what is kept is canonical |
| Normalize.ActorsOfList | graphql/schema/resolvers.js:58-65 | the normalised list is no longer than the input, and every record is canonical |
| Normalize.NamesOf | graphql/schema/resolvers.js:55 | each name becomes `{ Id: null, Name }` |
| Normalize.NormalizeActors | graphql/schema/resolvers.js:47-66 | a falsy value or one that is neither text nor array gives `[]`, text gives its CSV names, and a list gives its normalised elements |
| Normalize.CsvActorsAreClean | graphql/schema/resolvers.js:50-56 | every actor read from CSV text has no `Id` and a clean name |
| Normalize.ActorsOfCanonical | graphql/schema/resolvers.js:58-65 | normalising canonical actor records gives them back unchanged |
| Normalize.NormalizeActorsFixpoint | graphql/schema/resolvers.js:278-280 | normalising already normalised actors changes nothing |
| Normalize.ToGenres | graphql/schema/resolvers.js:68-73 | a non-empty `Genres` list wins, otherwise `Genre` text gives its CSV segments, otherwise `[]` |
| Normalize.GenresOfJoinedText | graphql/schema/resolvers.js:70-71 | the genres read from a comma join of clean names are those names |
| Normalize.ToGenresStable | graphql/schema/resolvers.js:79 | rebuilding the genres from an already built list changes nothing |
| Normalize.ToMovie | graphql/schema/resolvers.js:75-82 | every field is kept except `Genres` and `Actors`, which both become normalised lists |
| Normalize.ToMovieIdempotent | graphql/schema/resolvers.js:75-82 | shaping a shaped movie changes nothing |
| Normalize.ActorsResolverAfterToMovie | graphql/schema/resolvers.js:278-280 | the `Movie.Actors` field resolver returns a shaped movie's actors unchanged |
| Normalize.NormalizeActorPayload | graphql/schema/resolvers.js:132-138 | a record is accepted exactly when `Number(Id)` is finite and the name is non-blank text, and the result is exactly `{ Id, Name }` |
| Normalize.ActorPayloadThrowsRejects | graphql/schema/resolvers.js:133 | where `Number(a.Id)` throws, the value-level normaliser rejects the record |
| Normalize.ActorPayloadIdempotent | graphql/schema/resolvers.js:132-138 | an accepted actor record is accepted again unchanged |
| Normalize.OptionalNumber | graphql/schema/resolvers.js:151-155 | a nullish number field is left undefined, and anything else becomes `Number(v)` |
| Normalize.GenreList | graphql/schema/resolvers.js:147 | a genre list is kept, a truthy single value becomes a one-element list, and anything else becomes `[]` |
| Normalize.NormalizeMoviePayload | graphql/schema/resolvers.js:140-157 | a record is accepted exactly when `Number(Id)` is finite and the title is non-blank text; the result has exactly the item keys, with each one given by its rule |
| Normalize.MovieIdThrowsRejects | graphql/schema/resolvers.js:141 | where `Number(m.Id)` throws, the value-level normaliser rejects the record |
| Normalize.MoviePayloadStable | graphql/schema/resolvers.js:140-157 | an accepted movie record is accepted again with the same Id, title, genres, actors and numbers |
| Store.IdsOf | graphql/schema/resolvers.js:176 | the Ids of a collection, in order |
| Store.Select | graphql/schema/resolvers.js:175 | the matching documents are exactly those of the collection that match the filter |
| Store.Reject | graphql/schema/resolvers.js:255 | what `deleteMany` keeps is exactly the documents that do not match |
| Store.SelectRejectSplit | graphql/schema/resolvers.js:255-256 | the deleted and the kept documents together are the collection |
| Store.RejectKeepsUnique | graphql/models/Movie.js:4 | deleting keeps the Ids unique |
| Store.SelectAll | graphql/schema/resolvers.js:106 | the empty filter selects every document |
| Store.RejectNone | graphql/schema/resolvers.js:259-260 | when nothing matches, `deleteMany` changes nothing |
| Store.CastIdIn | graphql/schema/resolvers.js:175 | an `Id: { $in: ids }` filter always casts, unchanged |
| Store.IdInFindsStored | graphql/schema/resolvers.js:175-176 | a requested, non-null Id is among the found Ids exactly when it is stored |
| Store.FirstMatch | graphql/schema/resolvers.js:227 | the first document in natural order that matches, or none when nothing matches |
| Store.CastNumber | graphql/models/Movie.js:11-15 | a value cast to a Number path is nullish or a non-NaN number, a number is kept, and the cast fails exactly on an array or on input that gives NaN |
| Store.CastFilter | graphql/schema/resolvers.js:89 | a filter casts exactly when every condition on a Number path casts, and keeps its keys; an array on a schema path that is not an array becomes `$in` of its cast elements; an operator object (such as `{"$gt": 0}`) on a Number path does not cast |
| Store.ArrayIsIn | graphql/schema/resolvers.js:245-255 | an array of values for a schema path that is not an array is the `$in` lookup of those values |
| Store.DeleteByIdList | graphql/schema/resolvers.js:255-256 | `deleteMany` with a list of Ids removes exactly the stored documents with those Ids and counts them |
| Store.EmptyArrayMatchesNothing | graphql/schema/resolvers.js:255 | an empty array for a path that is not an array casts to an empty `$in` and matches no document |
| Store.NumericPathsExempt | graphql/schema/resolvers.js:5 | every Number path of the schemas is one of the keys `upgradeQuery` exempts |
| Store.Stripped | graphql/models/Movie.js:16 | strict mode keeps exactly the defined schema paths of the item |
| Store.CastFields | graphql/models/Movie.js:11-15 | an item casts exactly when every kept Number path casts, and then keeps its stripped keys |
| Store.Prepare | graphql/models/Actor.js:3-6 | a document that passes validation has its required paths (`Id` a number, `Title` or `Name` text) and is the cast item |
| Store.PrepareKeepsId | graphql/schema/resolvers.js:174-178 | a valid item with a finite `Id` is stored under that `Id` |
| Store.PrepareAll | graphql/schema/resolvers.js:178 | `insertMany` validates every item, keeping order and count |
| Store.PrepareAllFails | graphql/schema/resolvers.js:178 | a failed validation is the failure of one item |
| Store.IdsOfAppend | graphql/schema/resolvers.js:178 | the Ids of appended documents follow the old Ids |
| Store.InsertAll | graphql/models/Movie.js:4 | an ordered insert stores a prefix of the batch and stops only at an `Id` already present |
| Store.InsertAllNew | graphql/models/Movie.js:4 | no inserted document repeats a previously stored `Id` |
| Store.InsertAllKeepsUnique | graphql/models/Actor.js:4 | inserting keeps the Ids unique |
| Store.InsertAllFresh | graphql/schema/resolvers.js:178 | a batch of new, distinct Ids is inserted whole |
| Store.InsertManyOp | graphql/schema/resolvers.js:178 | `insertMany` only appends; on success it appends the whole validated batch; any new document has a fresh Id and fits the schema |
| Store.InsertManyOpAccepts | graphql/schema/resolvers.js:177-178 | a valid batch with distinct, unstored Ids succeeds and appends exactly its documents |
| Store.UpdateOneOp | graphql/schema/resolvers.js:227 | `findOneAndUpdate` with `$set` keeps the size; with no match it changes nothing; otherwise it rewrites the first match and returns the new document |
| Store.UpdateOneKeepsUnique | graphql/models/Movie.js:4 | updating keeps the Ids unique |
| Store.DeleteManyOp | graphql/schema/resolvers.js:255-256 | `deleteMany` succeeds exactly when the filter casts, keeps the documents that do not match and counts the ones removed |
| Store.Database.constructor | graphql/models/Movie.js:18 | a store holding the given collections |
| Store.Database.SetColl | graphql/schema/resolvers.js:178 | replaces one collection and leaves the other |
| Store.Database.Find | graphql/schema/resolvers.js:111 | `find` on an unreachable store fails; otherwise it fails exactly when the filter does not cast and gives the matching documents in order |
| Store.Database.CountDocuments | graphql/schema/resolvers.js:89 | `countDocuments` is the number of documents `find` gives |
| Store.Database.InsertMany | graphql/schema/resolvers.js:178 | the collection only grows by documents with new Ids, the other one is untouched, and the new state is that of `InsertManyOp` |
| Store.Database.FindOneAndUpdate | graphql/schema/resolvers.js:227 | the new state and result are those of `UpdateOneOp`, and the other collection is untouched |
| Store.Database.DeleteMany | graphql/schema/resolvers.js:255 | the new state and count are those of `DeleteManyOp`, and the other collection is untouched |
| Handlers.CountMessage | graphql/schema/resolvers.js:91-96 | the "no …s matching" text exactly for 0 and the "There is 1 …" text exactly for 1 |
| Handlers.CountMessageInjective | graphql/schema/resolvers.js:91-96 | different counts give different messages |
| Handlers.RunCount | graphql/schema/resolvers.js:85-98 | throws when the model or the query rewrite throws; otherwise succeeds exactly when the store is up and the filter casts, and reports the number of matching documents of the resolved collection |
| Handlers.Movies | graphql/schema/resolvers.js:122 | every movie found is shaped by `toMovie`, in order |
| Handlers.FoundActorsMessage | graphql/schema/resolvers.js:112-117 | the "couldn't find" text exactly when nothing is found, a text starting "I found 1 actor: " for one, and the count text for more |
| Handlers.FoundMoviesMessage | graphql/schema/resolvers.js:123-128 | the "couldn't find" text exactly when nothing is found, a text starting "I found 1 movie: " for one, and the count text for more |
| Handlers.RunGet | graphql/schema/resolvers.js:100-130 | throws when the model or the query rewrite throws; otherwise succeeds exactly when the store is up and either the count shortcut applies or the filter casts; the shortcut reports the size of the whole movie collection; otherwise actors are returned raw and movies shaped, each with the message for their number |
| Handlers.CountShortcutNeedsEmptyQuery | graphql/schema/resolvers.js:105 | the count shortcut is taken only for an empty query |
| Handlers.RawItems | graphql/schema/resolvers.js:161 | a payload that is not an array is one item with the query's fields overlaid by the payload's |
| Handlers.ItemOf | graphql/schema/resolvers.js:163-165 | an item is kept exactly when it is an object whose `Number(Id)` is finite and whose name (actor-shaped) or title is usable text; it is then the normaliser's result and has a finite `Id` |
| Handlers.ValidItems | graphql/schema/resolvers.js:162-165 | the valid items are no more than the raw ones and all have finite Ids |
| Handlers.ValidItemsFrom | graphql/schema/resolvers.js:162-165 | every valid item is the normalised form of some raw element |
| Handlers.ValidItemsComplete | graphql/schema/resolvers.js:162-165 | every raw element its normaliser accepts is among the valid items |
| Handlers.CreateTarget | graphql/schema/resolvers.js:161-167 | building the items throws exactly when a normaliser throws on a kept element; otherwise create goes to actors exactly when an `entityType` says so or the first item is actor-shaped, and it throws exactly for a `null` query when the intent's `entityType` is not `"actor"` |
| Handlers.Fresh | graphql/schema/resolvers.js:177 | the items to create are exactly the items whose `Id` is not taken |
| Handlers.FreshAgainstStored | graphql/schema/resolvers.js:174-177 | testing against the found Ids is the same as testing against all stored Ids |
| Handlers.CreateTwiceCreatesNothing | graphql/schema/resolvers.js:174-178 | creating is idempotent: once the new items are stored, the same request finds nothing left to create |
| Handlers.CreateMessage | graphql/schema/resolvers.js:181-191 | the message starts "I created " exactly when something was created, and is the "couldn't create any" text when nothing was created or found |
| Handlers.CreateResponse | graphql/schema/resolvers.js:179-193 | the response lists the existing records and then the created ones, in the collection's slot |
| Handlers.CreateInEffect | graphql/schema/resolvers.js:169-219 | only the target collection changes and it only grows by new Ids; an unreachable store fails with nothing changed; a failure is always a store fault; on success the collection gains exactly the validated items whose Id was not stored and the reply lists the stored and the created records; the reply opens with "I created " exactly when the collection grew |
| Handlers.InsertFresh | graphql/schema/resolvers.js:178-179 | inserting a non-empty batch changes only the target collection, which only grows by new Ids; a failure is a store fault; on success the collection gains exactly the validated batch, and the reply opens with "I created " |
| Handlers.CreateEffect | graphql/schema/resolvers.js:159-220 | create only ever adds records with new Ids; a normaliser that throws, or a `null` query, throws with nothing changed when the intent's `entityType` is not `"actor"`; no valid item gives the "couldn't understand" reply with nothing changed; otherwise it is the step above; a success reply opens with "I created " exactly when a collection changed |
| Handlers.CreateIn | graphql/schema/resolvers.js:169-219 | the new collections and the reply are those of `CreateInEffect`; only the target collection changes; it grows by exactly the validated items whose Id was not stored, and the response lists the stored and the created records |
| Handlers.CreateWithUnconvertibleIdThrows | graphql/schema/resolvers.js:141 | a single item whose `Id` cannot be converted, such as `{"Id": {"toString": "5"}}`, makes create throw with nothing changed, so the reply is the database error |
| Handlers.RunCreate | graphql/schema/resolvers.js:159-220 | the new collections and the reply are those of `CreateEffect`; both collections only grow by new Ids; a normaliser that throws throws before any store access, and a `null` query throws when the intent's `entityType` is not `"actor"`; no valid item gives the "couldn't understand" text with nothing changed |
| Handlers.UpdatedMovieMessage | graphql/schema/resolvers.js:236-239 | the movie update message starts "I updated movie " |
| Handlers.UpdateReply | graphql/schema/resolvers.js:229-239 | the reply says nothing was changed exactly when no record matched; a match gives the updated actor, or the shaped movie with an "I updated movie " message |
| Handlers.UpdateEffect | graphql/schema/resolvers.js:222-240 | a model or query that throws gives `TypeError` with nothing changed; no record is added or removed; only the resolved collection changes, exactly as `findOneAndUpdate`; a failure or a "couldn't find" reply changes nothing; a success needs a reachable store and a filter that casts, and the updated record is stored |
| Handlers.RunUpdate | graphql/schema/resolvers.js:222-240 | the new collections and the reply are those of `UpdateEffect`; a throwing model or query changes nothing; only the resolved collection changes, exactly as `findOneAndUpdate` does; with no match the message says nothing was changed; a match gives the actor or the shaped movie |
| Handlers.IdentifierMeansNonEmpty | graphql/schema/resolvers.js:248 | a query with an identifier is never empty |
| Handlers.RefusalReportsNothing | graphql/schema/resolvers.js:250-252 | the refusal does not read as a deletion or as a miss |
| Handlers.DeleteMessage | graphql/schema/resolvers.js:259-265 | the "couldn't find" text exactly when nothing was deleted; never "deleted all" for a non-empty query; for a non-empty query and a positive count it opens with "I deleted " and the count |
| Handlers.SameDeletedCount | graphql/schema/resolvers.js:265 | two counts whose numerals both follow "I deleted " at the opening of one text are equal |
| Handlers.DeleteMessageInjective | graphql/schema/resolvers.js:259-265 | for a non-empty query the reply determines the number of records deleted |
| Handlers.DeleteEffect | graphql/schema/resolvers.js:242-267 | a model or query that throws gives `TypeError` with nothing changed; without an identifier the refusal is given with nothing changed; otherwise it succeeds exactly when the store is up and the filter casts, the resolved collection then loses exactly the matching documents and the reply is the delete message for their number; a failure or a "couldn't find" reply changes nothing, and "I deleted all" is never said |
| Handlers.IdListModel | graphql/schema/resolvers.js:40-45 | a query `{"Id": ids}` with an `entityType` other than `"actor"` selects the movies |
| Handlers.IdListFilter | graphql/schema/resolvers.js:19-38 | `upgradeQuery` leaves the filter of a query `{"Id": ids}` unchanged |
| Handlers.DeleteByIdListIntent | graphql/schema/resolvers.js:242-267 | a delete intent whose query is `{"Id": ids}` of numbers, and whose `entityType` is not `"actor"`, passes the guard, removes exactly the movies with those Ids, and reports their number |
| Handlers.RunDelete | graphql/schema/resolvers.js:242-267 | the new collections and the reply are those of `DeleteEffect`; a throwing model or query and a query without an identifier change nothing; otherwise the resolved collection loses exactly the matching documents; the "I deleted all" text is never produced |
| Dispatch.HandlerFor | graphql/schema/resolvers.js:269-275 | the table has exactly the five actions |
| Dispatch.LookupAsWritten | graphql/schema/resolvers.js:324 | `HANDLERS[action]` finds the five handlers and also every inherited `Object.prototype` member |
| Dispatch.PrototypeMembersNotRejected | graphql/schema/resolvers.js:324-327 | an action such as `toString` passes the unknown-action test as written, though it is no handler |
| Dispatch.WithFocus | graphql/schema/resolvers.js:308 | the reply keeps the handler's response and adds the prompt's display focus |
| Dispatch.Caught | graphql/schema/resolvers.js:329-335 | a handler's response is kept, and anything it throws becomes the database-error message |
| Dispatch.OnlyObjectsRoute | graphql/schema/resolvers.js:323-326 | only an object can name a handler |
| Dispatch.Route | graphql/schema/resolvers.js:323-335 | it throws a `TypeError` exactly when the action cannot become a property key, with nothing changed; otherwise an unknown action changes nothing and names the action; `count` and `get` change nothing and return their handler's caught reply, with `get` given the count test only for the action `"get"`; `create`, `update` and `delete` leave the collections their effect function gives and return its caught reply; create only grows the collections; a delete without an identifier changes nothing |
| Dispatch.AskAI | graphql/schema/resolvers.js:300-336 | every reply carries the prompt's display focus; no reply gives the connect failure, and an unparsable or `null` one, or one whose action cannot become a property key, gives the parse failure, both with nothing changed; an unknown action changes nothing; each of the five actions gives its handler's caught reply with the focus, and the collections its handler leaves |
| Dispatch.AskAIAsWritten | graphql/schema/resolvers.js:314-327 | as written, a reply of `null`, or an `action` that cannot become a property key, throws out of the resolver with no message and no focus, and with nothing changed; every other reply is answered |
| Dispatch.ToStringKeyThrows | graphql/schema/resolvers.js:324 | an action object with its own `toString` key cannot become a property key |

## Left out

- The call to the language model (`graphql/ai/ollamaService.js`), `JSON.parse` and the HTTP path are left out. The reply and the parse result are inputs of `Dispatch.AskAI`.
- Console logging, `async`/`await` scheduling and concurrent requests are left out. The race between the Id lookup and `insertMany` in create is not modelled.
- A store outage is one `reachable` flag on `Store.Database`, and every store call fails while it is down. Connection set-up (`graphql/config/db.js`) is not part of this model.
- The `Query` resolvers `getMovies`, `getMovie`, `getActors` and `getActor` (`graphql/schema/resolvers.js:282-296`) are left out. Each is a single store read followed by `toMovie`, and both of those are modelled.
- GraphQL output coercion (`graphql/schema/type-defs.js`) and the frontend are left out.
- Floating-point numbers are opaque: `Number()` recognises only decimal integers (with sign and white space) and `Infinity`. Any other numeric text is modelled as `NaN`. Fractions such as `7.5` are kept as their printed text.
- `toLowerCase`, `\w`, `\s`, `\b` and `trim` are modelled on the ASCII characters plus the Unicode white space JavaScript's `trim` knows. No other Unicode case mapping is modelled.
- The store model is mongoose 7 or later with `strictQuery` off. Query values are matched by equality, by the three regex forms `upgradeQuery` builds, or by the implicit `$in` of an array on a path that is not an array, and an operator object inside an untrusted value is not run as an operator. On a Number path (`Id`, `Year`, …) the cast of such an object fails, so the store call fails and the database-error reply is given; on any other path it is matched by equality. The store itself would run the operator: a delete with `{"Id": {"$gt": 0}}` passes the identifier guard of `runDelete` (`graphql/schema/resolvers.js:248`), which only tests that `Id` is not nullish, and would remove nearly every record. The guard cannot prevent such a deletion, and the model does not capture it. Other mongoose casts are left out: String-path casts, casting the elements of `Genres`, defaults for `Genres` and `Actors`, `_id` and `__v`.
- Numbers are unbounded integers. An `Id` above 2^53 keeps its exact value instead of rounding to a double, so two such Ids that JavaScript would make equal stay distinct. `String()` of a number of 1e21 or more, which JavaScript writes in exponent form, is modelled as plain digits.
- `toObject()` on read documents is the identity: documents are plain objects in the model.
- A `$set` payload that is not an object is modelled by its spread.
- A collection is a sequence in natural order with a unique-`Id` invariant, rather than a map keyed by `Id`. This keeps the order of `find` results, which the messages and responses depend on.
- Js.ToStr, Js.ToNumber: an object with its own `toString` key, which JavaScript cannot convert, is rendered as `[object Object]` and read as `NaN`. Where the source converts one (`HANDLERS[action]` and the `Number(...)` of the create normalisers), the model tests `Js.ConversionThrows` first and throws. The exception is `Number(a.Id)` in `normalizeActors` (`graphql/schema/resolvers.js:62`). It runs on an actor reference stored under the untyped `Actors` path, which the model reads as `NaN` rather than throwing. That throw would turn the reply shaping of every handler into a possible failure. The message templates render only values the schema has cast to text or numbers, so they never meet such an object.
- What an inherited `Object.prototype` function would do when called as a handler is not modelled; `Dispatch.LookupAsWritten` only shows that the lookup finds it.
- Handlers.UpdatedMovieMessage: states only the message's fixed opening, not the optional `Year` and `Rating` parts.
- Handlers.CreateMessage: states which opening each case gets, not the full text of the messages that list skipped records.
- Handlers.FoundActorsMessage, Handlers.FoundMoviesMessage: for a single record they state only the fixed opening, not the name, Id and year that follow.

## Findings

| source | as written | input that shows it | evidently intended | confidence | as-written member | corrected member |
|---|---|---|---|---|---|---|
| graphql/schema/resolvers.js:323 | `const { action } = parsed` runs outside both `try` blocks, so a reply that parses to `null` throws out of the resolver | the model replies with the text `null` | answer with the parse-failure message and the display focus, as for any unusable reply | medium, not executed | Dispatch.AskAIAsWritten | Dispatch.AskAI |
| graphql/schema/resolvers.js:324 | `HANDLERS[action]` converts the action to a property key outside both `try` blocks, so an action object with its own `toString` key throws out of the resolver | an intent `{"action": {"toString": "get"}}` | answer with the parse-failure message and the display focus, as for any unusable reply | medium, not executed | Dispatch.AskAIAsWritten | Dispatch.AskAI |
| graphql/schema/resolvers.js:324-327 | `HANDLERS[action]` also finds members inherited from `Object.prototype`, so the unknown-action reply is skipped and `handler(parsed)` calls a function that is no handler | an intent `{"action": "toString"}` | only the five own handlers are found, and any other action gets the unknown-action reply | medium, not executed | Dispatch.LookupAsWritten | Dispatch.HandlerFor |
