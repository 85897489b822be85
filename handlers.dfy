/**
 * The five action handlers `runCount`, `runGet`, `runCreate`, `runUpdate` and
 * `runDelete`. Each takes the parsed intent, an object with the optional members
 * `entityType`, `query` and `payload`, resolves the collection, normalises the query,
 * calls the store and builds the reply message. A handler that throws is modelled by an
 * `Err` result; what it throws is a `Failure`.
 */
module Handlers {
  import opened Wrappers
  import opened Text
  import opened Js
  import opened Schema
  import opened Query
  import opened Store
  import opened Normalize
  import opened Resolve

  /** `{message, movies, actors}` */
  datatype Response = Response(message: string, movies: seq<Object>, actors: seq<Object>)

  /** `emptyResponse(message)` */
  function Empty(message: string): Response {
    Response(message, [], [])
  }

  // ----- reading the intent -----

  /** `const { query = {} } = parsed`: the default replaces a missing query, not a `null` one. */
  function QueryOf(intent: Object): Value {
    if Get(intent, "query").Undefined? then Obj(map[]) else Get(intent, "query")
  }

  /** `const { payload = {} } = parsed` */
  function PayloadOf(intent: Object): Value {
    if Get(intent, "payload").Undefined? then Obj(map[]) else Get(intent, "payload")
  }

  function EntityTypeOf(intent: Object): Value {
    Get(intent, "entityType")
  }

  /** `upgradeQuery(query)`, which spreads the query into a fresh filter first, or what it throws. */
  function FilterOf(intent: Object): Result<Filter, Failure> {
    Upgraded(AsFilter(QueryOf(intent)))
  }

  /** `getModel(entityType, query)`, with the default empty payload. */
  function ModelOf(intent: Object): Result<Kind, Failure> {
    GetModel(EntityTypeOf(intent), QueryOf(intent), Obj(map[]))
  }

  // ----- what a writing handler leaves behind -----

  /** The collection of kind `k` among the two. */
  function CollOf(k: Kind, movies: Collection, actors: Collection): Collection {
    match k
    case Movie => movies
    case Actor => actors
  }

  /** The two collections once a handler is done, and what it returned or threw. */
  datatype Effect = Effect(movies: Collection, actors: Collection, result: Result<Response, Failure>)

  /** `c` stored as the collection of kind `k`, the other collection kept. */
  function Stored(k: Kind, c: Collection, movies: Collection, actors: Collection, result: Result<Response, Failure>): (e: Effect)
    ensures CollOf(k, e.movies, e.actors) == c
    ensures CollOf(Other(k), e.movies, e.actors) == CollOf(Other(k), movies, actors)
    ensures e.result == result
  {
    match k
    case Movie => Effect(c, actors, result)
    case Actor => Effect(movies, c, result)
  }

  /** `s` begins with `p`. */
  predicate StartsWith(s: string, p: string) {
    |p| <= |s| && s[..|p|] == p
  }

  lemma PrefixStarts(p: string, x: string)
    ensures StartsWith(p + x, p)
  {
    assert (p + x)[..|p|] == p;
  }

  /** A text that begins with `p` does not begin with `q` when the two disagree early on. */
  lemma PrefixExcludes(p: string, x: string, q: string, i: nat)
    requires i < |p| && i < |q| && p[i] != q[i]
    ensures !StartsWith(p + x, q)
    ensures p + x != q
  {
    assert (p + x)[i] == p[i];
  }

  lemma DiffersAt(s: string, q: string, i: nat)
    requires i < |s| && i < |q| && s[i] != q[i]
    ensures !StartsWith(s, q) && s != q
  {
    if |q| <= |s| {
      assert s[..|q|][i] == s[i];
    }
  }

  /** `n > 1 ? "s" : ""` */
  function Plural(n: nat): string {
    if n > 1 then "s" else ""
  }

  // ----- runCount -----

  /** The reply of `runCount` for `n` matching records. */
  function CountMessage(k: Kind, n: nat): (m: string)
    ensures n == 0 <==> m == "There are no " + EntityName(k) + "s matching your query."
    ensures n == 1 <==> m == "There is 1 " + EntityName(k) + " in the database."
  {
    var e := EntityName(k);
    if n == 0 then "There are no " + e + "s matching your query."
    else if n == 1 then "There is 1 " + e + " in the database."
    else
      var m := "There are " + NatToString(n) + " " + e + "s in the database.";
      assert m[6] == 'a' && m[10] != 'n' by {
        assert m[10] == NatToString(n)[0];
      }
      m
  }

  /** Different counts give different messages: the reply states the count exactly. */
  lemma CountMessageInjective(k: Kind, a: nat, b: nat)
    requires CountMessage(k, a) == CountMessage(k, b)
    ensures a == b
  {
    if a > 1 && b > 1 {
      var sa, sb := NatToString(a), NatToString(b);
      var rest := " " + EntityName(k) + "s in the database.";
      var ma, mb := CountMessage(k, a), CountMessage(k, b);
      assert ma == "There are " + sa + rest;
      assert mb == "There are " + sb + rest;
      assert |sa| == |sb|;
      assert ma[10..10 + |sa|] == sa;
      assert mb[10..10 + |sb|] == sb;
      NatToStringInjective(a, b);
    }
  }

  /** `runCount(parsed)` */
  function RunCount(db: Database, intent: Object): (r: Result<Response, Failure>)
    reads db
    ensures ModelOf(intent).Err? || FilterOf(intent).Err? ==> r == Err(TypeError)
    ensures (ModelOf(intent).Ok? && FilterOf(intent).Ok?) ==>
      var k, f := ModelOf(intent).value, FilterOf(intent).value;
      (r.Ok? <==> db.reachable && CastFilter(k, f).Ok?) &&
      (r.Ok? && CastFilter(k, f).Ok? ==> r.value == Empty(CountMessage(k, |Select(db.Coll(k), CastFilter(k, f).value)|)))
  {
    match ModelOf(intent)
    case Err(e) => Err(e)
    case Ok(k) =>
      match FilterOf(intent)
      case Err(e) => Err(e)
      case Ok(f) =>
        match db.CountDocuments(k, f)
        case Err(e) => Err(e)
        case Ok(n) => Ok(Empty(CountMessage(k, n)))
  }

  // ----- runGet -----

  /** `toMovie` on each record found. */
  function Movies(ds: seq<Doc>): (ms: seq<Object>)
    ensures |ms| == |ds|
    ensures forall i :: 0 <= i < |ds| ==> ms[i] == ToMovie(ds[i])
  {
    seq(|ds|, i requires 0 <= i < |ds| => ToMovie(ds[i]))
  }

  const NoActorsFound := "I couldn't find any actors matching your request."

  const NoMoviesFound := "I couldn't find any movies matching your request."

  /** The reply of `runGet` for the actors found. */
  function FoundActorsMessage(actors: seq<Doc>): (m: string)
    ensures actors == [] <==> m == NoActorsFound
    ensures |actors| == 1 ==> StartsWith(m, "I found 1 actor: ")
    ensures |actors| > 1 ==> m == "I found " + (NatToString(|actors|) + " actors matching your request.")
  {
    if actors == [] then NoActorsFound
    else
      var tail :=
        if |actors| == 1 then "1 actor: " + (ToStr(Get(actors[0], "Name")) + " (Id " + ToStr(IdOf(actors[0])) + ").")
        else NatToString(|actors|) + " actors matching your request.";
      NotFoundExcluded("I found ", tail, NoActorsFound);
      if |actors| == 1 then
        assert "I found " + tail == "I found 1 actor: " + tail[9..];
        PrefixStarts("I found 1 actor: ", tail[9..]);
        "I found " + tail
      else "I found " + tail
  }

  /** `${Title} (Id ${Id}, Year ${Year || "N/A"}).` */
  function MovieLine(m: Object): string {
    var year := Get(m, "Year");
    ToStr(Get(m, "Title")) + " (Id " + ToStr(IdOf(m)) + ", Year " + (if Truthy(year) then ToStr(year) else "N/A") + ")."
  }

  /** The reply of `runGet` for the movies found, after `toMovie`. */
  function FoundMoviesMessage(movies: seq<Object>): (m: string)
    ensures movies == [] <==> m == NoMoviesFound
    ensures |movies| == 1 ==> StartsWith(m, "I found 1 movie: ")
    ensures |movies| > 1 ==> m == "I found " + (NatToString(|movies|) + " movies matching your request.")
  {
    if movies == [] then NoMoviesFound
    else
      var tail :=
        if |movies| == 1 then "1 movie: " + MovieLine(movies[0])
        else NatToString(|movies|) + " movies matching your request.";
      NotFoundExcluded("I found ", tail, NoMoviesFound);
      if |movies| == 1 then
        assert "I found " + tail == "I found 1 movie: " + tail[9..];
        PrefixStarts("I found 1 movie: ", tail[9..]);
        "I found " + tail
      else "I found " + tail
  }

  /** "I found ..." is never one of the not-found replies. */
  lemma NotFoundExcluded(p: string, tail: string, none: string)
    requires p == "I found " && (none == NoActorsFound || none == NoMoviesFound)
    ensures p + tail != none
  {
    assert none == "I couldn't " + none[11..];
    assert none[2] == 'c';
    PrefixExcludes(p, tail, none, 2);
  }

  /**
   * The shortcut of `runGet`: a count phrase in the prompt, a movie intent whose query
   * names no entity type, and a filter that is empty once normalised.
   */
  predicate CountShortcut(intent: Object, isCountQuery: bool) {
    EntityTypeOf(intent) != Str("actor") && !Truthy(Field(QueryOf(intent), "entityType"))
    && isCountQuery && FilterOf(intent) == Ok(map[])
  }

  /** `runGet(parsed, isCountQuery)` */
  function RunGet(db: Database, intent: Object, isCountQuery: bool): (r: Result<Response, Failure>)
    reads db
    ensures ModelOf(intent).Err? || FilterOf(intent).Err? ==> r == Err(TypeError)
    ensures (ModelOf(intent).Ok? && FilterOf(intent).Ok?) ==>
      var k, f := ModelOf(intent).value, FilterOf(intent).value;
      r.Ok? <==> db.reachable && (CountShortcut(intent, isCountQuery) || CastFilter(k, f).Ok?)
    ensures (r.Ok? && CountShortcut(intent, isCountQuery)) ==>
      r.value == Empty("There are " + NatToString(|db.movies|) + " movies in the database.")
    ensures (r.Ok? && !CountShortcut(intent, isCountQuery) && ModelOf(intent) == Ok(Actor) && FilterOf(intent).Ok?
      && CastFilter(Actor, FilterOf(intent).value).Ok?) ==>
      var found := Select(db.actors, CastFilter(Actor, FilterOf(intent).value).value);
      r.value == Response(FoundActorsMessage(found), [], found)
    ensures (r.Ok? && !CountShortcut(intent, isCountQuery) && ModelOf(intent) == Ok(Movie) && FilterOf(intent).Ok?
      && CastFilter(Movie, FilterOf(intent).value).Ok?) ==>
      var found := Movies(Select(db.movies, CastFilter(Movie, FilterOf(intent).value).value));
      r.value == Response(FoundMoviesMessage(found), found, [])
  {
    match ModelOf(intent)
    case Err(e) => Err(e)
    case Ok(k) =>
      match FilterOf(intent)
      case Err(e) => Err(e)
      case Ok(f) =>
        if CountShortcut(intent, isCountQuery) then
          match db.CountDocuments(Movie, map[])
          case Err(e) => Err(e)
          case Ok(n) =>
            SelectAll(db.movies);
            assert CastFilter(Movie, map[]) == Ok(map[]);
            Ok(Empty("There are " + NatToString(n) + " movies in the database."))
        else
          match db.Find(k, f)
          case Err(e) => Err(e)
          case Ok(ds) =>
            if k == Actor then Ok(Response(FoundActorsMessage(ds), [], ds))
            else
              var ms := Movies(ds);
              Ok(Response(FoundMoviesMessage(ms), ms, []))
  }

  /** The shortcut needs a query with no keys at all. */
  lemma CountShortcutNeedsEmptyQuery(intent: Object, isCountQuery: bool)
    requires CountShortcut(intent, isCountQuery)
    ensures Spread(QueryOf(intent)) == map[]
  {
    UpgradedEmpty(AsFilter(QueryOf(intent)));
  }

  // ----- runCreate -----

  /** `payload.Name && !payload.Title`: the item is shaped like an actor. */
  predicate ActorItem(x: Object) {
    Truthy(Get(x, "Name")) && !Truthy(Get(x, "Title"))
  }

  /** An array payload flattened, else one item made of the query overlaid by the payload. */
  function RawItems(query: Value, payload: Value): (raw: seq<Value>)
    ensures !payload.Arr? ==> raw == [Obj(Spread(query) + Spread(payload))]
  {
    if payload.Arr? then FlatFrom(payload, 0) else [Obj(Spread(query) + Spread(payload))]
  }

  /** One raw item kept and normalised: it must be an object, and it must validate. */
  function ItemOf(x: Value): (r: Option<Object>)
    ensures r.Some? <==> (x.Obj? && IsFinite(ToNumber(Get(x.fields, "Id")))
      && UsableText(if ActorItem(x.fields) then Chosen(x.fields, "Name", "name") else Chosen(x.fields, "Title", "title")))
    ensures r.Some? ==> x.Obj? && IsFinite(Get(r.value, "Id"))
    ensures r.Some? && ActorItem(x.fields) ==> r == NormalizeActorPayload(x.fields)
    ensures r.Some? && !ActorItem(x.fields) ==> r == NormalizeMoviePayload(x.fields)
  {
    if !x.Obj? then None
    else if ActorItem(x.fields) then NormalizeActorPayload(x.fields)
    else NormalizeMoviePayload(x.fields)
  }

  /** The `filter`, `map`, `filter(Boolean)` chain of `runCreate`. */
  function ValidItems(raw: seq<Value>): (items: seq<Object>)
    ensures |items| <= |raw|
    ensures forall i :: 0 <= i < |items| ==> IsFinite(Get(items[i], "Id"))
  {
    if raw == [] then []
    else
      var rest := ValidItems(raw[1..]);
      match ItemOf(raw[0])
      case None => rest
      case Some(it) => [it] + rest
  }

  /** An item the raw list yields is the normalisation of one of its elements. */
  lemma {:induction false} ValidItemsFrom(raw: seq<Value>, i: int)
    requires 0 <= i < |ValidItems(raw)|
    ensures exists j :: 0 <= j < |raw| && ItemOf(raw[j]) == Some(ValidItems(raw)[i])
  {
    var rest := ValidItems(raw[1..]);
    if ItemOf(raw[0]).Some? && i == 0 {
      assert ItemOf(raw[0]) == Some(ValidItems(raw)[0]);
    } else {
      var i' := if ItemOf(raw[0]).Some? then i - 1 else i;
      assert ValidItems(raw)[i] == rest[i'];
      ValidItemsFrom(raw[1..], i');
      var j :| 0 <= j < |raw[1..]| && ItemOf(raw[1..][j]) == Some(rest[i']);
      assert raw[j + 1] == raw[1..][j];
    }
  }

  /** Every raw element its normaliser accepts is among the items. */
  lemma {:induction false} ValidItemsComplete(raw: seq<Value>, j: int)
    requires 0 <= j < |raw| && ItemOf(raw[j]).Some?
    ensures ItemOf(raw[j]).value in ValidItems(raw)
  {
    var rest := ValidItems(raw[1..]);
    var head := if ItemOf(raw[0]).Some? then [ItemOf(raw[0]).value] else [];
    assert ValidItems(raw) == head + rest;
    if j > 0 {
      assert raw[1..][j - 1] == raw[j];
      ValidItemsComplete(raw[1..], j - 1);
      assert ItemOf(raw[j]).value in rest;
    } else {
      assert ItemOf(raw[j]).value in head;
    }
  }

  function CreateItems(intent: Object): seq<Object> {
    ValidItems(RawItems(QueryOf(intent), PayloadOf(intent)))
  }

  /** The normaliser `ItemOf` picks for the raw element `x` throws. */
  predicate ItemThrows(x: Value) {
    x.Obj? && (if ActorItem(x.fields) then ActorPayloadThrows(x.fields) else MoviePayloadThrows(x.fields))
  }

  /** The `map` of `runCreate` runs the normaliser on every kept element, so one that throws is enough. */
  predicate ItemsThrow(intent: Object) {
    var raw := RawItems(QueryOf(intent), PayloadOf(intent));
    exists i :: 0 <= i < |raw| && ItemThrows(raw[i])
  }

  /**
   * `items`, then `isActor` of `runCreate`. Building `items` throws when a normaliser
   * throws. Then the intent or its query names actors, or the first valid item is an
   * actor. Reading `query.entityType` throws when the query is `null`.
   */
  function CreateTarget(intent: Object): (r: Result<Kind, Failure>)
    ensures r.Err? <==> ItemsThrow(intent) || (EntityTypeOf(intent) != Str("actor") && IsNullish(QueryOf(intent)))
    ensures r == Ok(Actor) <==> (!ItemsThrow(intent) && (EntityTypeOf(intent) == Str("actor") || (!IsNullish(QueryOf(intent)) &&
      (Field(QueryOf(intent), "entityType") == Str("actor") || (CreateItems(intent) != [] && ActorItem(CreateItems(intent)[0]))))))
  {
    var items := CreateItems(intent);
    if ItemsThrow(intent) then Err(TypeError)
    else if EntityTypeOf(intent) == Str("actor") then Ok(Actor)
    else if IsNullish(QueryOf(intent)) then Err(TypeError)
    else if Field(QueryOf(intent), "entityType") == Str("actor") || (items != [] && ActorItem(items[0])) then Ok(Actor)
    else Ok(Movie)
  }

  /** `items.map((a) => a.Id)` */
  function ItemIds(items: seq<Object>): (ids: seq<Value>)
    ensures |ids| == |items|
    ensures forall i :: 0 <= i < |items| ==> ids[i] == Get(items[i], "Id")
  {
    seq(|items|, i requires 0 <= i < |items| => Get(items[i], "Id"))
  }

  /** `items.filter((a) => !existingIds.has(a.Id))` */
  function Fresh(items: seq<Object>, taken: seq<Value>): (r: seq<Object>)
    ensures |r| <= |items|
    ensures forall i :: 0 <= i < |r| ==> r[i] in items && Get(r[i], "Id") !in taken
    ensures forall x :: x in items && Get(x, "Id") !in taken ==> x in r
  {
    if items == [] then []
    else (if Get(items[0], "Id") in taken then [] else [items[0]]) + Fresh(items[1..], taken)
  }

  /** `Fresh` keeps the same items for two lists of taken Ids that agree on every item's Id. */
  lemma {:induction false} FreshAgree(items: seq<Object>, t1: seq<Value>, t2: seq<Value>)
    requires forall i :: 0 <= i < |items| ==> (Get(items[i], "Id") in t1 <==> Get(items[i], "Id") in t2)
    ensures Fresh(items, t1) == Fresh(items, t2)
  {
    if items != [] {
      FreshAgree(items[1..], t1, t2);
    }
  }

  /** The Ids the lookup of `runCreate` finds are, for its own items, exactly the stored ones. */
  lemma FreshAgainstStored(c: Collection, items: seq<Object>)
    requires forall i :: 0 <= i < |items| ==> IsFinite(Get(items[i], "Id"))
    ensures Fresh(items, IdsOf(Select(c, IdIn(ItemIds(items))))) == Fresh(items, IdsOf(c))
  {
    var ids := ItemIds(items);
    forall i | 0 <= i < |items|
      ensures Get(items[i], "Id") in IdsOf(Select(c, IdIn(ids))) <==> Get(items[i], "Id") in IdsOf(c)
    {
      assert ids[i] == Get(items[i], "Id");
      IdInFindsStored(c, ids, Get(items[i], "Id"));
    }
    FreshAgree(items, IdsOf(Select(c, IdIn(ids))), IdsOf(c));
  }

  /** Nothing is left to create once every item's Id is taken. */
  lemma {:induction false} FreshNone(items: seq<Object>, taken: seq<Value>)
    requires forall i :: 0 <= i < |items| ==> Get(items[i], "Id") in taken
    ensures Fresh(items, taken) == []
  {
    if items != [] {
      FreshNone(items[1..], taken);
    }
  }

  /**
   * Create is additive and idempotent: after the items not yet stored are inserted, the
   * same items leave nothing to create.
   */
  lemma CreateTwiceCreatesNothing(c: Collection, k: Kind, items: seq<Object>)
    requires forall i :: 0 <= i < |items| ==> IsFinite(Get(items[i], "Id"))
    requires PrepareAll(k, Fresh(items, IdsOf(c))).Ok?
    ensures Fresh(items, IdsOf(c + PrepareAll(k, Fresh(items, IdsOf(c))).value)) == []
  {
    var pending := Fresh(items, IdsOf(c));
    var ds := PrepareAll(k, pending).value;
    IdsOfAppend(c, ds);
    forall i | 0 <= i < |items| ensures Get(items[i], "Id") in IdsOf(c + ds) {
      var x := items[i];
      if Get(x, "Id") !in IdsOf(c) {
        assert x in pending;
        var j :| 0 <= j < |pending| && pending[j] == x;
        assert Prepare(k, pending[j]) == Ok(ds[j]);
        PrepareKeepsId(k, x);
        assert IdsOf(ds)[j] == Get(x, "Id");
      }
    }
    FreshNone(items, IdsOf(c + ds));
  }

  /** `${a.Name} (Id ${a.Id})` for each record, joined with ", " (`Title` for a movie). */
  function Labels(k: Kind, ds: seq<Doc>): string {
    Join(seq(|ds|, i requires 0 <= i < |ds| => ToStr(Get(ds[i], RequiredText(k))) + " (Id " + ToStr(IdOf(ds[i])) + ")"), ", ")
  }

  /** The five-way reply of `runCreate`: it reports a creation exactly when something was created. */
  function CreateMessage(k: Kind, created: seq<Doc>, existing: seq<Doc>): (m: string)
    ensures StartsWith(m, "I created ") <==> created != []
    ensures created == [] && existing == [] ==> m == "I couldn't create any new " + EntityName(k) + "s from your request."
  {
    var e := EntityName(k);
    var c, x := |created|, |existing|;
    if c > 0 then
      var tail :=
        if x > 0 then
          NatToString(c) + " new " + e + Plural(c) + ", but skipped " + NatToString(x) + " because the Id" + Plural(x)
          + " already exist" + (if x > 1 then "" else "s") + ": " + Labels(k, existing) + "."
        else NatToString(c) + " new " + e + Plural(c) + ".";
      PrefixStarts("I created ", tail);
      "I created " + tail
    else
      var tail :=
        if x == 1 then
          "create a new " + e + " because a" + (if k == Actor then "n " else " ") + e + " with Id "
          + ToStr(IdOf(existing[0])) + " already exists: " + ToStr(Get(existing[0], RequiredText(k))) + "."
        else if x > 1 then "create any new " + e + "s because these Ids already exist: " + Labels(k, existing) + "."
        else "create any new " + e + "s from your request.";
      PrefixExcludes("I couldn't ", tail, "I created ", 3);
      "I couldn't " + tail
  }

  /** The reply of `runCreate` for the records found and created. */
  function CreateResponse(k: Kind, existing: seq<Doc>, created: seq<Doc>): (r: Response)
    ensures k == Actor ==> r.actors == existing + created && r.movies == []
    ensures k == Movie ==> r.movies == Movies(existing + created) && r.actors == []
    ensures r.message == CreateMessage(k, created, existing)
  {
    var msg := CreateMessage(k, created, existing);
    if k == Actor then Response(msg, [], existing + created)
    else Response(msg, Movies(existing + created), [])
  }

  /**
   * The part of `runCreate` after the collection is known and some item is valid, on the
   * collections as values: look the items' Ids up, insert the ones not found, and report.
   * On success the collection gained exactly the records the reply reports as created.
   */
  function CreateInEffect(k: Kind, movies: Collection, actors: Collection, reachable: bool, items: seq<Object>): (e: Effect)
    ensures CollOf(Other(k), e.movies, e.actors) == CollOf(Other(k), movies, actors)
    ensures Grows(CollOf(k, movies, actors), CollOf(k, e.movies, e.actors))
    ensures !reachable ==> e == Effect(movies, actors, Err(StoreFailure(Unavailable)))
    ensures e.result.Err? ==> e.result.error.StoreFailure?
    ensures e.result.Ok? ==>
      var c := CollOf(k, movies, actors);
      var toCreate := Fresh(items, IdsOf(Select(c, IdIn(ItemIds(items)))));
      reachable && PrepareAll(k, toCreate).Ok? &&
      CollOf(k, e.movies, e.actors) == c + PrepareAll(k, toCreate).value &&
      e.result.value == CreateResponse(k, Select(c, IdIn(ItemIds(items))), PrepareAll(k, toCreate).value)
    ensures e.result.Ok? ==>
      (StartsWith(e.result.value.message, "I created ") <==> CollOf(k, e.movies, e.actors) != CollOf(k, movies, actors))
  {
    var c := CollOf(k, movies, actors);
    var ids := ItemIds(items);
    if !reachable then Effect(movies, actors, Err(StoreFailure(Unavailable)))
    else
      // the lookup `{Id: {$in: ids}}` casts to itself, so it cannot fail
      CastIdIn(k, ids);
      var existing := Select(c, IdIn(ids));
      var toCreate := Fresh(items, IdsOf(existing));
      if toCreate == [] then
        assert c == c + [];
        Effect(movies, actors, Ok(CreateResponse(k, existing, [])))
      else InsertFresh(k, movies, actors, existing, toCreate)
  }

  /** The insert step of `CreateInEffect`, for a non-empty list of new items. */
  function InsertFresh(k: Kind, movies: Collection, actors: Collection, existing: seq<Doc>, toCreate: seq<Object>): (e: Effect)
    requires toCreate != []
    ensures CollOf(Other(k), e.movies, e.actors) == CollOf(Other(k), movies, actors)
    ensures Grows(CollOf(k, movies, actors), CollOf(k, e.movies, e.actors))
    ensures e.result.Err? ==> e.result.error.StoreFailure?
    ensures e.result.Ok? ==>
      PrepareAll(k, toCreate).Ok? &&
      CollOf(k, e.movies, e.actors) == CollOf(k, movies, actors) + PrepareAll(k, toCreate).value &&
      e.result.value == CreateResponse(k, existing, PrepareAll(k, toCreate).value)
    ensures e.result.Ok? ==>
      StartsWith(e.result.value.message, "I created ") && CollOf(k, e.movies, e.actors) != CollOf(k, movies, actors)
  {
    var c := CollOf(k, movies, actors);
    var o := InsertManyOp(c, k, toCreate);
    match o.result
    case Err(x) => Stored(k, o.coll, movies, actors, Err(StoreFailure(x)))
    case Ok(created) =>
      assert |o.coll| == |c| + |created|;
      Stored(k, o.coll, movies, actors, Ok(CreateResponse(k, existing, created)))
  }

  /**
   * `runCreate(parsed)` on the collections as values: it only ever adds records, and it
   * reports a creation exactly when a collection grew.
   */
  function CreateEffect(movies: Collection, actors: Collection, reachable: bool, intent: Object): (e: Effect)
    ensures Grows(movies, e.movies) && Grows(actors, e.actors)
    ensures CreateTarget(intent).Err? ==> e == Effect(movies, actors, Err(TypeError))
    ensures (CreateTarget(intent).Ok? && CreateItems(intent) == []) ==>
      e == Effect(movies, actors, Ok(Empty("I couldn't understand which " + EntityName(CreateTarget(intent).value) + "s to create from your request.")))
    ensures (CreateTarget(intent).Ok? && CreateItems(intent) != []) ==>
      e == CreateInEffect(CreateTarget(intent).value, movies, actors, reachable, CreateItems(intent))
    ensures e.result.Ok? ==>
      (StartsWith(e.result.value.message, "I created ") <==> e.movies != movies || e.actors != actors)
  {
    match CreateTarget(intent)
    case Err(x) => Effect(movies, actors, Err(x))
    case Ok(k) =>
      if CreateItems(intent) == [] then
        var m := "I couldn't understand which " + EntityName(k) + "s to create from your request.";
        DiffersAt(m, "I created ", 3);
        Effect(movies, actors, Ok(Empty(m)))
      else
        var e := CreateInEffect(k, movies, actors, reachable, CreateItems(intent));
        assert CollOf(Other(k), e.movies, e.actors) == CollOf(Other(k), movies, actors);
        assert k == Movie || k == Actor;
        e
  }

  /**
   * A single item whose `Id` cannot be converted, such as `{"Id": {"toString": "5"}, "Title": "X"}`:
   * `Number(m.Id)` throws inside the `try`, before any store access.
   */
  lemma CreateWithUnconvertibleIdThrows(movies: Collection, actors: Collection, reachable: bool, intent: Object)
    requires PayloadOf(intent).Obj?
    requires ConversionThrows(Get(Spread(QueryOf(intent)) + PayloadOf(intent).fields, "Id"))
    ensures CreateEffect(movies, actors, reachable, intent) == Effect(movies, actors, Err(TypeError))
  {
    var raw := RawItems(QueryOf(intent), PayloadOf(intent));
    assert ItemThrows(raw[0]);
  }

  /** The method form of `CreateInEffect`, on the database. */
  method CreateIn(db: Database, k: Kind, items: seq<Object>) returns (r: Result<Response, Failure>)
    requires db.Valid()
    requires forall i :: 0 <= i < |items| ==> IsFinite(Get(items[i], "Id"))
    modifies db
    ensures db.Valid() && db.reachable == old(db.reachable)
    ensures Effect(db.movies, db.actors, r) == CreateInEffect(k, old(db.movies), old(db.actors), old(db.reachable), items)
    ensures db.Coll(Other(k)) == old(db.Coll(Other(k)))
    ensures Grows(old(db.Coll(k)), db.Coll(k))
    ensures r.Ok? ==>
      var toCreate := Fresh(items, IdsOf(old(db.Coll(k))));
      PrepareAll(k, toCreate).Ok? &&
      db.Coll(k) == old(db.Coll(k)) + PrepareAll(k, toCreate).value &&
      r.value == CreateResponse(k, Select(old(db.Coll(k)), IdIn(ItemIds(items))), PrepareAll(k, toCreate).value)
  {
    var ids := ItemIds(items);
    var found := db.Find(k, IdIn(ids));
    if found.Err? {
      return Err(found.error);
    }
    CastIdIn(k, ids);
    var existing := found.value;
    var toCreate := Fresh(items, IdsOf(existing));
    FreshAgainstStored(db.Coll(k), items);
    var created: seq<Doc> := [];
    if toCreate != [] {
      var inserted := db.InsertMany(k, toCreate);
      if inserted.Err? {
        return Err(inserted.error);
      }
      created := inserted.value;
    } else {
      assert db.Coll(k) == old(db.Coll(k)) + [];
    }
    r := Ok(CreateResponse(k, existing, created));
  }

  /** `runCreate(parsed)`: inserts the valid items whose Id is not stored yet, and nothing else. */
  method RunCreate(db: Database, intent: Object) returns (r: Result<Response, Failure>)
    requires db.Valid()
    modifies db
    ensures db.Valid() && db.reachable == old(db.reachable)
    ensures Effect(db.movies, db.actors, r) == CreateEffect(old(db.movies), old(db.actors), old(db.reachable), intent)
    ensures Grows(old(db.movies), db.movies) && Grows(old(db.actors), db.actors)
    ensures CreateTarget(intent).Err? ==> r == Err(TypeError)
    ensures CreateTarget(intent).Err? || CreateItems(intent) == [] ==>
      db.movies == old(db.movies) && db.actors == old(db.actors)
    ensures (CreateTarget(intent).Ok? && CreateItems(intent) == []) ==>
      r == Ok(Empty("I couldn't understand which " + EntityName(CreateTarget(intent).value) + "s to create from your request."))
    ensures r.Ok? ==> CreateTarget(intent).Ok?
    ensures (r.Ok? && CreateTarget(intent).Ok? && CreateItems(intent) != []) ==>
      var k := CreateTarget(intent).value;
      var toCreate := Fresh(CreateItems(intent), IdsOf(old(db.Coll(k))));
      PrepareAll(k, toCreate).Ok? &&
      db.Coll(k) == old(db.Coll(k)) + PrepareAll(k, toCreate).value &&
      db.Coll(Other(k)) == old(db.Coll(Other(k))) &&
      r.value == CreateResponse(k, Select(old(db.Coll(k)), IdIn(ItemIds(CreateItems(intent)))), PrepareAll(k, toCreate).value)
  {
    var items := CreateItems(intent);
    var target := CreateTarget(intent);
    if target.Err? {
      return Err(TypeError);
    }
    var k := target.value;
    if items == [] {
      return Ok(Empty("I couldn't understand which " + EntityName(k) + "s to create from your request."));
    }
    r := CreateIn(db, k, items);
  }

  // ----- runUpdate -----

  /** `getModel(entityType, query, payload)` */
  function UpdateModelOf(intent: Object): Result<Kind, Failure> {
    GetModel(EntityTypeOf(intent), QueryOf(intent), PayloadOf(intent))
  }

  /** The reply for an updated movie: its Year and Rating are listed only when truthy. */
  function UpdatedMovieMessage(d: Doc): (m: string)
    ensures StartsWith(m, "I updated movie ")
  {
    var year, rating := Get(d, "Year"), Get(d, "Rating");
    var parts := ["I updated movie " + ToStr(Get(d, "Title")) + " (Id " + ToStr(IdOf(d))]
      + (if Truthy(year) then ["Year " + ToStr(year)] else [])
      + (if Truthy(rating) then ["Rating " + ToStr(rating)] else []);
    var m := Join(parts, ", ") + ").";
    assert StartsWith(m, parts[0]) by {
      JoinStartsWithFirst(parts, ", ");
    }
    assert m[..16] == m[..|parts[0]|][..16];
    m
  }

  lemma JoinStartsWithFirst(parts: seq<string>, sep: string)
    requires |parts| >= 1
    ensures StartsWith(Join(parts, sep), parts[0])
  {
  }

  /**
   * The reply of `runUpdate` for what `findOneAndUpdate` returned: it says nothing was
   * changed exactly when no record matched, and otherwise carries the updated record.
   */
  function UpdateReply(k: Kind, updated: Option<Doc>): (r: Response)
    ensures StartsWith(r.message, "I couldn't find") <==> updated.None?
    ensures updated.None? ==> r.movies == [] && r.actors == []
    ensures updated.Some? && k == Actor ==> r.movies == [] && r.actors == [updated.value]
    ensures updated.Some? && k == Movie ==> r.movies == [ToMovie(updated.value)] && r.actors == []
    ensures updated.Some? && k == Movie ==> StartsWith(r.message, "I updated movie ")
    ensures updated.Some? && k == Actor ==> StartsWith(r.message, "I updated actor ")
  {
    match updated
    case None =>
      var m := "I couldn't find any " + EntityName(k) + " matching your update request, so nothing was changed.";
      assert m[..15] == "I couldn't find";
      Empty(m)
    case Some(d) =>
      if k == Actor then
        var m := "I updated actor " + ToStr(Get(d, "Name")) + " (Id " + ToStr(IdOf(d)) + ").";
        assert m[..16] == "I updated actor ";
        DiffersAt(m, "I couldn't find", 2);
        Response(m, [], [d])
      else
        var m := UpdatedMovieMessage(d);
        assert m[2] == "I updated movie "[2];
        DiffersAt(m, "I couldn't find", 2);
        Response(m, [ToMovie(d)], [])
  }

  /**
   * `runUpdate(parsed)` on the collections as values: at most one record of one collection
   * changes, no record is added or removed, and a "not found" reply changes nothing.
   */
  function UpdateEffect(movies: Collection, actors: Collection, reachable: bool, intent: Object): (e: Effect)
    ensures UpdateModelOf(intent).Err? || FilterOf(intent).Err? ==> e == Effect(movies, actors, Err(TypeError))
    ensures |e.movies| == |movies| && |e.actors| == |actors|
    ensures e.result.Err? ==> e.movies == movies && e.actors == actors
    ensures e.result.Ok? && StartsWith(e.result.value.message, "I couldn't find") ==> e.movies == movies && e.actors == actors
    ensures (UpdateModelOf(intent).Ok? && FilterOf(intent).Ok?) ==>
      var k, f := UpdateModelOf(intent).value, FilterOf(intent).value;
      var o := UpdateOneOp(CollOf(k, movies, actors), k, f, PayloadOf(intent));
      CollOf(Other(k), e.movies, e.actors) == CollOf(Other(k), movies, actors) &&
      (!reachable ==> e == Effect(movies, actors, Err(StoreFailure(Unavailable)))) &&
      (reachable ==> CollOf(k, e.movies, e.actors) == o.coll) &&
      (e.result.Ok? <==> reachable && o.result.Ok?) &&
      (e.result.Ok? ==> reachable && CastFilter(k, f).Ok? && o.result.Ok? && e.result.value == UpdateReply(k, o.result.value)) &&
      (e.result.Ok? && o.result.Ok? && o.result.value.Some? ==> o.result.value.value in CollOf(k, e.movies, e.actors))
  {
    match UpdateModelOf(intent)
    case Err(x) => Effect(movies, actors, Err(x))
    case Ok(k) =>
      match FilterOf(intent)
      case Err(x) => Effect(movies, actors, Err(x))
      case Ok(f) =>
        if !reachable then Effect(movies, actors, Err(StoreFailure(Unavailable)))
        else
          var c := CollOf(k, movies, actors);
          var o := UpdateOneOp(c, k, f, PayloadOf(intent));
          assert |CollOf(Other(k), movies, actors)| == |CollOf(Other(k), movies, actors)|;
          match o.result
          case Err(x) => Stored(k, o.coll, movies, actors, Err(StoreFailure(x)))
          case Ok(d) =>
            assert d.Some? ==> d.value in o.coll by {
              if d.Some? {
                var i := FirstMatch(c, CastFilter(k, f).value).value;
                assert o.coll[i] == d.value;
              }
            }
            Stored(k, o.coll, movies, actors, Ok(UpdateReply(k, d)))
  }

  /** `runUpdate(parsed)`: `$set` on the first match, and nothing else changes. */
  method RunUpdate(db: Database, intent: Object) returns (r: Result<Response, Failure>)
    requires db.Valid()
    modifies db
    ensures db.Valid() && db.reachable == old(db.reachable)
    ensures Effect(db.movies, db.actors, r) == UpdateEffect(old(db.movies), old(db.actors), old(db.reachable), intent)
    ensures UpdateModelOf(intent).Err? || FilterOf(intent).Err? ==>
      r == Err(TypeError) && db.movies == old(db.movies) && db.actors == old(db.actors)
    ensures (UpdateModelOf(intent).Ok? && FilterOf(intent).Ok?) ==>
      var k := UpdateModelOf(intent).value;
      db.Coll(Other(k)) == old(db.Coll(Other(k))) &&
      (db.reachable ==> db.Coll(k) == UpdateOneOp(old(db.Coll(k)), k, FilterOf(intent).value, PayloadOf(intent)).coll) &&
      (!db.reachable ==> db.Coll(k) == old(db.Coll(k)) && r == Err(StoreFailure(Unavailable)))
    ensures (r.Ok? && UpdateModelOf(intent).Ok? && FilterOf(intent).Ok?) ==>
      var k := UpdateModelOf(intent).value;
      var res := UpdateOneOp(old(db.Coll(k)), k, FilterOf(intent).value, PayloadOf(intent)).result;
      res.Ok? &&
      (res.value.None? ==> r.value == Empty("I couldn't find any " + EntityName(k) + " matching your update request, so nothing was changed.")) &&
      (res.value.Some? && k == Actor ==> r.value == Response("I updated actor " + ToStr(Get(res.value.value, "Name"))
        + " (Id " + ToStr(IdOf(res.value.value)) + ").", [], [res.value.value])) &&
      (res.value.Some? && k == Movie ==> r.value == Response(UpdatedMovieMessage(res.value.value), [ToMovie(res.value.value)], []))
  {
    var model := UpdateModelOf(intent);
    if model.Err? {
      return Err(TypeError);
    }
    var k := model.value;
    var q := UpgradeQuery(AsFilter(QueryOf(intent)));
    if q.Err? {
      return Err(q.error);
    }
    var updated := db.FindOneAndUpdate(k, q.value, PayloadOf(intent));
    if updated.Err? {
      return Err(updated.error);
    }
    r := Ok(UpdateReply(k, updated.value));
    assert Effect(db.movies, db.actors, r) == UpdateEffect(old(db.movies), old(db.actors), old(db.reachable), intent) by {
      assert CollOf(k, old(db.movies), old(db.actors)) == old(db.Coll(k));
    }
  }

  // ----- runDelete -----

  /** `q[key] != null` for a key of the normalised filter. */
  predicate Identifies(q: Filter, key: string) {
    key in q && !IsNullCond(q[key])
  }

  /** `hasIdentifier`: the filter names an `Id`, `Title`, `Name`, `Director` or `Year`. */
  predicate HasIdentifier(q: Filter) {
    Identifies(q, "Id") || Identifies(q, "Title") || Identifies(q, "Name")
    || Identifies(q, "Director") || Identifies(q, "Year")
  }

  /** A filter with an identifier has a key, so the "deleted all" reply cannot be given. */
  lemma IdentifierMeansNonEmpty(q: Filter)
    requires HasIdentifier(q)
    ensures |q| > 0
  {
    var key :| key in q;
  }

  /**
   * The refusal of `runDelete`. It is one literal in `runDelete`; it is written here with
   * its opening apart, because the verifier does not look into the characters of a literal
   * this long.
   */
  const DeleteRefusal: string :=
    "Delete request " + "must specify which item(s) to delete (e.g. by Id, Title, or Name). I won't delete without a specific filter."

  /** The refusal is not a report of a deletion. */
  lemma RefusalReportsNothing()
    ensures !StartsWith(DeleteRefusal, "I deleted all") && !StartsWith(DeleteRefusal, "I couldn't find")
  {
    PrefixExcludes("Delete request ", DeleteRefusal[15..], "I deleted all", 0);
    PrefixExcludes("Delete request ", DeleteRefusal[15..], "I couldn't find", 0);
  }

  /**
   * The reply of `runDelete` once `n` documents were deleted: it says nothing was removed
   * exactly when `n` is 0, it speaks of deleting all records only for an empty filter, and
   * otherwise it opens with the count.
   */
  function DeleteMessage(k: Kind, n: nat, q: Filter): (m: string)
    ensures StartsWith(m, "I couldn't find") <==> n == 0
    ensures |q| > 0 ==> !StartsWith(m, "I deleted all")
    ensures n > 0 && |q| > 0 ==> StartsWith(m, "I deleted " + NatToString(n) + " ")
  {
    var e := EntityName(k);
    if n == 0 then
      var m := "I couldn't find" + (" any " + e + " matching your delete request, so nothing was removed.");
      PrefixStarts("I couldn't find", m[15..]);
      DiffersAt(m, "I deleted all", 2);
      m
    else if |q| == 0 then
      var m := "I deleted " + ("all " + NatToString(n) + " " + e + Plural(n) + " from the database.");
      PrefixExcludes("I deleted ", m[10..], "I couldn't find", 2);
      m
    else
      var m := "I deleted " + NatToString(n) + " " + (e + Plural(n) + " matching your request.");
      PrefixStarts("I deleted " + NatToString(n) + " ", e + Plural(n) + " matching your request.");
      PrefixExcludes("I deleted ", m[10..], "I couldn't find", 2);
      assert m[10] == NatToString(n)[0];
      DiffersAt(m, "I deleted all", 10);
      m
  }

  /** What follows a prefix `p + x` of `m`. */
  lemma RestAfter(m: string, p: string, x: string)
    requires StartsWith(m, p + x)
    ensures m[|p|..] == x + m[|p| + |x|..]
  {
    assert m[|p|..|p| + |x|] == m[..|p| + |x|][|p|..] == x;
    assert m[|p|..] == m[|p|..|p| + |x|] + m[|p| + |x|..];
  }

  /** Two counts whose numerals both follow "I deleted " at the opening of `m` are the same. */
  lemma SameDeletedCount(m: string, a: nat, b: nat)
    requires StartsWith(m, "I deleted " + NatToString(a) + " ")
    requires StartsWith(m, "I deleted " + NatToString(b) + " ")
    ensures a == b
  {
    var na, nb := NatToString(a), NatToString(b);
    assert "I deleted " + na + " " == "I deleted " + (na + " ");
    assert "I deleted " + nb + " " == "I deleted " + (nb + " ");
    RestAfter(m, "I deleted ", na + " ");
    RestAfter(m, "I deleted ", nb + " ");
    LeadingDigitsOf(na, m[10 + |na| + 1..]);
    LeadingDigitsOf(nb, m[10 + |nb| + 1..]);
    assert na == m[10..][..|na|] == nb;
    NatToStringInjective(a, b);
  }

  /** For a non-empty filter the reply determines how many records were deleted. */
  lemma DeleteMessageInjective(k: Kind, a: nat, b: nat, q: Filter)
    requires |q| > 0 && DeleteMessage(k, a, q) == DeleteMessage(k, b, q)
    ensures a == b
  {
    if a > 0 && b > 0 {
      SameDeletedCount(DeleteMessage(k, a, q), a, b);
    }
  }

  /**
   * `runDelete(parsed)` on the collections as values: without an identifier nothing is
   * deleted; otherwise exactly the matching records of one collection go, and the reply
   * reports their number.
   */
  function DeleteEffect(movies: Collection, actors: Collection, reachable: bool, intent: Object): (e: Effect)
    ensures ModelOf(intent).Err? || FilterOf(intent).Err? ==> e == Effect(movies, actors, Err(TypeError))
    ensures (ModelOf(intent).Ok? && FilterOf(intent).Ok? && !HasIdentifier(FilterOf(intent).value)) ==>
      e == Effect(movies, actors, Ok(Empty(DeleteRefusal)))
    ensures (ModelOf(intent).Ok? && FilterOf(intent).Ok? && HasIdentifier(FilterOf(intent).value)) ==>
      var k, f := ModelOf(intent).value, FilterOf(intent).value;
      var c := CollOf(k, movies, actors);
      CollOf(Other(k), e.movies, e.actors) == CollOf(Other(k), movies, actors) &&
      (e.result.Ok? <==> reachable && CastFilter(k, f).Ok?) &&
      (e.result.Ok? && CastFilter(k, f).Ok? ==>
        CollOf(k, e.movies, e.actors) == Reject(c, CastFilter(k, f).value) &&
        e.result.value == Empty(DeleteMessage(k, |Select(c, CastFilter(k, f).value)|, f)))
    ensures e.result.Err? ==> e.movies == movies && e.actors == actors
    ensures e.result.Ok? ==> !StartsWith(e.result.value.message, "I deleted all")
    ensures e.result.Ok? && StartsWith(e.result.value.message, "I couldn't find") ==> e.movies == movies && e.actors == actors
  {
    match ModelOf(intent)
    case Err(x) => Effect(movies, actors, Err(x))
    case Ok(k) =>
      match FilterOf(intent)
      case Err(x) => Effect(movies, actors, Err(x))
      case Ok(f) =>
        if !HasIdentifier(f) then
          RefusalReportsNothing();
          Effect(movies, actors, Ok(Empty(DeleteRefusal)))
        else if !reachable then Effect(movies, actors, Err(StoreFailure(Unavailable)))
        else
          IdentifierMeansNonEmpty(f);
          var c := CollOf(k, movies, actors);
          var o := DeleteManyOp(c, k, f);
          match o.result
          case Err(x) => Stored(k, o.coll, movies, actors, Err(StoreFailure(x)))
          case Ok(n) =>
            assert n == 0 ==> o.coll == c by {
              if n == 0 {
                RejectNone(c, CastFilter(k, f).value);
              }
            }
            assert k == Movie || k == Actor;
            Stored(k, o.coll, movies, actors, Ok(Empty(DeleteMessage(k, n, f))))
  }

  /** A query `{"Id": ids}` names no actor, so `getModel` picks the movies. */
  lemma IdListModel(entityType: Value, ids: seq<Value>)
    requires entityType != Str("actor")
    ensures GetModel(entityType, Obj(map["Id" := Arr(ids)]), Obj(map[])) == Ok(Movie)
  {
    var q := Obj(map["Id" := Arr(ids)]);
    assert !QueryNamesActor(q);
    assert !ActorShaped(Obj(map[]));
    assert !NameOnlyQuery(q);
  }

  /** `upgradeQuery` leaves the filter of a query `{"Id": ids}` as it is. */
  lemma IdListFilter(ids: seq<Value>)
    ensures Upgraded(AsFilter(Obj(map["Id" := Arr(ids)]))) == Ok(map["Id" := Eq(Arr(ids))])
  {
    var f := map["Id" := Eq(Arr(ids))];
    assert AsFilter(Obj(map["Id" := Arr(ids)])) == f;
    assert ExactAll(f) == f;
  }

  /**
   * A delete whose query lists Ids, `{"query": {"Id": [...]}}`, passes the identifier guard
   * and removes exactly the movies with those Ids.
   */
  lemma DeleteByIdListIntent(movies: Collection, actors: Collection, intent: Object, ids: seq<Value>)
    requires EntityTypeOf(intent) != Str("actor")
    requires QueryOf(intent) == Obj(map["Id" := Arr(ids)])
    requires forall i :: 0 <= i < |ids| ==> IsNumber(ids[i]) && !ids[i].NaN?
    ensures var e := DeleteEffect(movies, actors, true, intent);
      e.movies == Reject(movies, IdIn(ids)) && e.actors == actors &&
      e.result == Ok(Empty(DeleteMessage(Movie, |Select(movies, IdIn(ids))|, map["Id" := Eq(Arr(ids))])))
  {
    IdListModel(EntityTypeOf(intent), ids);
    IdListFilter(ids);
    assert Identifies(map["Id" := Eq(Arr(ids))], "Id");
    ArrayIsIn(Movie, "Id", ids);
  }

  /** `runDelete(parsed)`: deletes every match, and never without an identifier in the filter. */
  method RunDelete(db: Database, intent: Object) returns (r: Result<Response, Failure>)
    requires db.Valid()
    modifies db
    ensures db.Valid() && db.reachable == old(db.reachable)
    ensures Effect(db.movies, db.actors, r) == DeleteEffect(old(db.movies), old(db.actors), old(db.reachable), intent)
    ensures ModelOf(intent).Err? || FilterOf(intent).Err? ==> r == Err(TypeError)
    ensures ModelOf(intent).Err? || FilterOf(intent).Err? || !HasIdentifier(FilterOf(intent).value) ==>
      db.movies == old(db.movies) && db.actors == old(db.actors)
    ensures ModelOf(intent).Ok? && FilterOf(intent).Ok? && !HasIdentifier(FilterOf(intent).value) ==> r == Ok(Empty(DeleteRefusal))
    ensures (ModelOf(intent).Ok? && FilterOf(intent).Ok? && HasIdentifier(FilterOf(intent).value)) ==>
      var k := ModelOf(intent).value;
      db.Coll(Other(k)) == old(db.Coll(Other(k))) &&
      (db.reachable ==> db.Coll(k) == DeleteManyOp(old(db.Coll(k)), k, FilterOf(intent).value).coll) &&
      (!db.reachable ==> db.Coll(k) == old(db.Coll(k)))
    ensures r.Ok? ==> !StartsWith(r.value.message, "I deleted all")
    ensures r.Ok? && StartsWith(r.value.message, "I couldn't find") ==>
      db.movies == old(db.movies) && db.actors == old(db.actors)
  {
    var model := ModelOf(intent);
    if model.Err? {
      return Err(TypeError);
    }
    var k := model.value;
    var q := UpgradeQuery(AsFilter(QueryOf(intent)));
    if q.Err? {
      return Err(q.error);
    }
    var f := q.value;
    if !HasIdentifier(f) {
      RefusalReportsNothing();
      return Ok(Empty(DeleteRefusal));
    }
    IdentifierMeansNonEmpty(f);
    var result := db.DeleteMany(k, f);
    if result.Err? {
      return Err(result.error);
    }
    var n := result.value;
    if n == 0 {
      RejectNone(old(db.Coll(k)), CastFilter(k, f).value);
    }
    r := Ok(Empty(DeleteMessage(k, n, f)));
  }
}
