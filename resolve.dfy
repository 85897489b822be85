/**
 * `getModel`: which collection an intent is about, by an ordered list of rules over
 * the intent's `entityType`, its query and its payload.
 */
module Resolve {
  import opened Wrappers
  import opened Js
  import opened Schema

  /** The query names the actor collection itself: `query.entityType === "actor"`. */
  predicate QueryNamesActor(query: Value) {
    Field(query, "entityType") == Str("actor")
  }

  /** `payload.Name && !payload.Title`: the payload is shaped like an actor. */
  predicate ActorShaped(payload: Value) {
    Truthy(Field(payload, "Name")) && !Truthy(Field(payload, "Title"))
  }

  /** `Object.keys(query).length === 1 && query.Name`: the query looks an actor up by name alone. */
  predicate NameOnlyQuery(query: Value) {
    query.Obj? && |query.fields| == 1 && Truthy(Get(query.fields, "Name"))
  }

  /**
   * `getModel(entityType, query, payload)`. The rules are tried in order; reading a
   * property of a `null` query or payload throws, but only once a rule gets that far.
   */
  function GetModel(entityType: Value, query: Value, payload: Value): (r: Result<Kind, Failure>)
    ensures entityType == Str("actor") ==> r == Ok(Actor)
    ensures entityType != Str("actor") && IsNullish(query) ==> r == Err(TypeError)
    ensures entityType != Str("actor") && !IsNullish(query) && QueryNamesActor(query) ==> r == Ok(Actor)
    ensures r.Err? <==> entityType != Str("actor") && (IsNullish(query) || (!QueryNamesActor(query) && IsNullish(payload)))
    ensures r == Ok(Actor) <==>
      (entityType == Str("actor") || (!IsNullish(query) && (QueryNamesActor(query)
        || (!IsNullish(payload) && (ActorShaped(payload) || NameOnlyQuery(query))))))
  {
    if entityType == Str("actor") then Ok(Actor)
    else if IsNullish(query) then Err(TypeError)
    else if QueryNamesActor(query) then Ok(Actor)
    else if IsNullish(payload) then Err(TypeError)
    else if ActorShaped(payload) then Ok(Actor)
    else if NameOnlyQuery(query) then Ok(Actor)
    else Ok(Movie)
  }

  /** With the default empty payload, a movie intent is a movie unless the query says otherwise. */
  lemma DefaultPayloadResolves(entityType: Value, query: Value)
    requires !IsNullish(query)
    ensures GetModel(entityType, query, Obj(map[])).Ok?
    ensures GetModel(entityType, query, Obj(map[])) == Ok(Movie) <==>
      entityType != Str("actor") && !QueryNamesActor(query) && !NameOnlyQuery(query)
  {
  }

  /** A query that sets any key besides `Name` never selects actors by the name-only rule. */
  lemma NameOnlyNeedsSingleKey(query: Value, other: string)
    requires query.Obj? && other in query.fields && other != "Name"
    ensures !NameOnlyQuery(query)
  {
    if |query.fields| == 1 {
      assert query.fields.Keys == {other} by {
        assert other in query.fields.Keys;
        SingletonKeys(query.fields.Keys, other);
      }
    }
  }

  lemma SingletonKeys(s: set<string>, x: string)
    requires |s| == 1 && x in s
    ensures s == {x}
  {
    var rest := s - {x};
    assert |rest| == 0;
  }
}
