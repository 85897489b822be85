/**
 * `askAI`, the one mutation of the service: it asks the language model for an intent,
 * parses it, routes its `action` through the `HANDLERS` table and turns whatever happens
 * into a reply stamped with the prompt's display focus. The model's reply and the
 * result of parsing it are inputs here.
 */
module Dispatch {
  import opened Wrappers
  import opened Js
  import opened Focus
  import opened Store
  import opened Handlers

  datatype Action = Count | Get | Create | Update | Delete

  /** The `HANDLERS` table, read by own property only. */
  function HandlerFor(key: string): (h: Option<Action>)
    ensures h.Some? <==> key in {"count", "get", "create", "update", "delete"}
    ensures h == Some(Get) <==> key == "get"
  {
    if key == "count" then Some(Count)
    else if key == "get" then Some(Get)
    else if key == "create" then Some(Create)
    else if key == "update" then Some(Update)
    else if key == "delete" then Some(Delete)
    else None
  }

  /** The members every plain object inherits from `Object.prototype`. */
  const ObjectPrototypeMembers: set<string> :=
    {"constructor", "toString", "toLocaleString", "valueOf", "hasOwnProperty", "isPrototypeOf",
     "propertyIsEnumerable", "__proto__", "__defineGetter__", "__defineSetter__", "__lookupGetter__",
     "__lookupSetter__"}

  /** What `HANDLERS[key]` yields on the object literal: an own handler or an inherited member. */
  datatype Entry = Handler(action: Action) | Inherited(name: string)

  /** `HANDLERS[action]` as written, which also finds the inherited members. */
  function LookupAsWritten(key: string): (e: Option<Entry>)
    ensures e.Some? <==> HandlerFor(key).Some? || key in ObjectPrototypeMembers
    ensures HandlerFor(key).Some? ==> e == Some(Handler(HandlerFor(key).value))
  {
    match HandlerFor(key)
    case Some(a) => Some(Handler(a))
    case None => if key in ObjectPrototypeMembers then Some(Inherited(key)) else None
  }

  /**
   * An action such as `"toString"` or `"constructor"` passes the `!handler` test, so the
   * unknown-action reply is not given for it; the own-property table refuses it.
   */
  lemma PrototypeMembersNotRejected(key: string)
    requires key in ObjectPrototypeMembers
    ensures LookupAsWritten(key).Some? && LookupAsWritten(key).value.Inherited?
    ensures HandlerFor(key).None?
  {
  }

  /** What `askAI` returns: the handler's reply plus the display focus. */
  datatype Reply = Reply(message: string, movies: seq<Object>, actors: seq<Object>, displayFocus: string)

  /** `withFocus(result)` */
  function WithFocus(prompt: string, r: Response): (out: Reply)
    ensures out.displayFocus == DisplayFocus(prompt)
    ensures out.message == r.message && out.movies == r.movies && out.actors == r.actors
  {
    Reply(r.message, r.movies, r.actors, DisplayFocus(prompt))
  }

  const ConnectFailure := "I couldn't connect to the AI service."

  const ParseFailure := "I couldn't understand the AI's response."

  const DatabaseError := "I ran into a database error. Please check the server logs."

  /** The reply for an action the table does not have; it names the action as `String` renders it. */
  function UnknownAction(action: Value): string {
    "I don't understand the action \"" + ToStr(action) + "\". Please use create, get, update, or delete."
  }

  /** The `try`/`catch` around a handler: anything it throws becomes the database-error reply. */
  function Caught(r: Result<Response, Failure>): (out: Response)
    ensures r.Ok? ==> out == r.value
    ensures r.Err? ==> out == Empty(DatabaseError)
  {
    match r
    case Ok(resp) => resp
    case Err(_) => Empty(DatabaseError)
  }

  function ActionOf(parsed: Value): Value {
    Field(parsed, "action")
  }

  /** Only an object can name an action the table has: anything else has no `action`. */
  lemma OnlyObjectsRoute(parsed: Value)
    requires HandlerFor(ToStr(ActionOf(parsed))).Some?
    ensures parsed.Obj?
  {
  }

  /** The parse result is an object whose `action` converts to a property key. */
  predicate Routed(parsed: Value) {
    parsed.Obj? && !ConversionThrows(ActionOf(parsed))
  }

  /** `{"action": {"toString": "get"}}`: the action object cannot become a property key. */
  lemma ToStringKeyThrows(name: Value)
    ensures ConversionThrows(ActionOf(Obj(map["action" := Obj(map["toString" := name])])))
  {
  }

  /**
   * From `const { action } = parsed` on, for a parse result that is not `null`: the
   * lookup, and the handler inside the `try`. `HANDLERS[action]` converts the action to a
   * property key outside the `try`, so an action whose conversion throws throws out of
   * here. `runGet` alone receives the count test, and only when the action is the string
   * `"get"` itself.
   */
  method Route(db: Database, parsed: Value, isCountQuery: bool) returns (out: Result<Response, Failure>)
    requires db.Valid()
    modifies db
    ensures db.Valid() && db.reachable == old(db.reachable)
    ensures out.Err? <==> ConversionThrows(ActionOf(parsed))
    ensures out.Err? ==> out.error == TypeError && db.movies == old(db.movies) && db.actors == old(db.actors)
    ensures (!ConversionThrows(ActionOf(parsed)) && HandlerFor(ToStr(ActionOf(parsed))).None?) ==>
      out == Ok(Empty(UnknownAction(ActionOf(parsed)))) && db.movies == old(db.movies) && db.actors == old(db.actors)
    ensures HandlerFor(ToStr(ActionOf(parsed))).Some? ==> parsed.Obj?
    ensures (Routed(parsed) && HandlerFor(ToStr(ActionOf(parsed))) == Some(Count)) ==>
      out == Ok(Caught(old(RunCount(db, parsed.fields)))) && db.movies == old(db.movies) && db.actors == old(db.actors)
    ensures (Routed(parsed) && HandlerFor(ToStr(ActionOf(parsed))) == Some(Get)) ==>
      out == Ok(Caught(old(RunGet(db, parsed.fields, ActionOf(parsed) == Str("get") && isCountQuery))))
      && db.movies == old(db.movies) && db.actors == old(db.actors)
    ensures (Routed(parsed) && HandlerFor(ToStr(ActionOf(parsed))) == Some(Create)) ==>
      var e := CreateEffect(old(db.movies), old(db.actors), old(db.reachable), parsed.fields);
      db.movies == e.movies && db.actors == e.actors && out == Ok(Caught(e.result))
    ensures (Routed(parsed) && HandlerFor(ToStr(ActionOf(parsed))) == Some(Update)) ==>
      var e := UpdateEffect(old(db.movies), old(db.actors), old(db.reachable), parsed.fields);
      db.movies == e.movies && db.actors == e.actors && out == Ok(Caught(e.result))
    ensures (Routed(parsed) && HandlerFor(ToStr(ActionOf(parsed))) == Some(Delete)) ==>
      var e := DeleteEffect(old(db.movies), old(db.actors), old(db.reachable), parsed.fields);
      db.movies == e.movies && db.actors == e.actors && out == Ok(Caught(e.result))
    ensures (Routed(parsed) && HandlerFor(ToStr(ActionOf(parsed))) == Some(Create)) ==>
      Grows(old(db.movies), db.movies) && Grows(old(db.actors), db.actors)
    ensures (Routed(parsed) && HandlerFor(ToStr(ActionOf(parsed))) == Some(Delete)
      && (ModelOf(parsed.fields).Err? || FilterOf(parsed.fields).Err? || !HasIdentifier(FilterOf(parsed.fields).value))) ==>
      db.movies == old(db.movies) && db.actors == old(db.actors)
  {
    var action := ActionOf(parsed);
    if ConversionThrows(action) {
      return Err(TypeError);
    }
    var handler := HandlerFor(ToStr(action));
    if handler.None? {
      return Ok(Empty(UnknownAction(action)));
    }
    OnlyObjectsRoute(parsed);
    var intent := parsed.fields;
    var r: Result<Response, Failure>;
    match handler.value {
      case Count => r := RunCount(db, intent);
      case Get => r := RunGet(db, intent, action == Str("get") && isCountQuery);
      case Create => r := RunCreate(db, intent);
      case Update => r := RunUpdate(db, intent);
      case Delete => r := RunDelete(db, intent);
    }
    out := Ok(Caught(r));
  }

  /** `!aiResponse`: no reply, or an empty one. */
  predicate NoReply(reply: Option<string>) {
    reply.None? || reply == Some("")
  }

  /** The reply is there, parses to an object, and its `action` selects `a` from the table. */
  predicate Dispatched(reply: Option<string>, parsed: Option<Value>, a: Action) {
    !NoReply(reply) && parsed.Some? && Routed(parsed.value) && HandlerFor(ToStr(ActionOf(parsed.value))) == Some(a)
  }

  /**
   * `askAI(prompt)`, with the model's reply and the outcome of `JSON.parse` on it as
   * inputs (`None` for a parse that throws). Every outcome carries the prompt's display
   * focus. A parse result of `null`, or one whose `action` cannot become a property key,
   * is answered like one that does not parse.
   */
  method AskAI(db: Database, prompt: string, reply: Option<string>, parsed: Option<Value>) returns (out: Reply)
    requires db.Valid()
    modifies db
    ensures db.Valid() && db.reachable == old(db.reachable)
    ensures out.displayFocus == DisplayFocus(prompt)
    ensures NoReply(reply) ==>
      out == WithFocus(prompt, Empty(ConnectFailure)) && db.movies == old(db.movies) && db.actors == old(db.actors)
    ensures (!NoReply(reply) && (parsed.None? || IsNullish(parsed.value) || ConversionThrows(ActionOf(parsed.value)))) ==>
      out == WithFocus(prompt, Empty(ParseFailure)) && db.movies == old(db.movies) && db.actors == old(db.actors)
    ensures (!NoReply(reply) && parsed.Some? && !IsNullish(parsed.value) && !ConversionThrows(ActionOf(parsed.value))
      && HandlerFor(ToStr(ActionOf(parsed.value))).None?) ==>
      out == WithFocus(prompt, Empty(UnknownAction(ActionOf(parsed.value))))
      && db.movies == old(db.movies) && db.actors == old(db.actors)
    ensures (!NoReply(reply) && parsed.Some? && !IsNullish(parsed.value) && !ConversionThrows(ActionOf(parsed.value))
      && HandlerFor(ToStr(ActionOf(parsed.value))).Some?) ==>
      exists a :: Dispatched(reply, parsed, a)
    ensures Dispatched(reply, parsed, Count) ==>
      out == WithFocus(prompt, Caught(old(RunCount(db, parsed.value.fields))))
      && db.movies == old(db.movies) && db.actors == old(db.actors)
    ensures Dispatched(reply, parsed, Get) ==>
      out == WithFocus(prompt, Caught(old(RunGet(db, parsed.value.fields, ActionOf(parsed.value) == Str("get") && IsCountQuery(prompt)))))
      && db.movies == old(db.movies) && db.actors == old(db.actors)
    ensures Dispatched(reply, parsed, Create) ==>
      var e := CreateEffect(old(db.movies), old(db.actors), old(db.reachable), parsed.value.fields);
      db.movies == e.movies && db.actors == e.actors && out == WithFocus(prompt, Caught(e.result))
    ensures Dispatched(reply, parsed, Update) ==>
      var e := UpdateEffect(old(db.movies), old(db.actors), old(db.reachable), parsed.value.fields);
      db.movies == e.movies && db.actors == e.actors && out == WithFocus(prompt, Caught(e.result))
    ensures Dispatched(reply, parsed, Delete) ==>
      var e := DeleteEffect(old(db.movies), old(db.actors), old(db.reachable), parsed.value.fields);
      db.movies == e.movies && db.actors == e.actors && out == WithFocus(prompt, Caught(e.result))
  {
    var isCountQuery := IsCountQuery(prompt);
    if NoReply(reply) {
      return WithFocus(prompt, Empty(ConnectFailure));
    }
    if parsed.None? || IsNullish(parsed.value) || ConversionThrows(ActionOf(parsed.value)) {
      return WithFocus(prompt, Empty(ParseFailure));
    }
    var handler := HandlerFor(ToStr(ActionOf(parsed.value)));
    if handler.Some? {
      OnlyObjectsRoute(parsed.value);
      assert Dispatched(reply, parsed, handler.value);
    }
    var result := Route(db, parsed.value, isCountQuery);
    out := WithFocus(prompt, result.value);
  }

  /**
   * `askAI` as written: `const { action } = parsed` and `HANDLERS[action]` sit outside both
   * `try` blocks. So a reply of `null`, or an `action` that cannot become a property key,
   * throws out of the resolver with no message and no display focus.
   */
  method AskAIAsWritten(db: Database, prompt: string, reply: Option<string>, parsed: Option<Value>)
    returns (out: Result<Reply, Failure>)
    requires db.Valid()
    modifies db
    ensures db.Valid() && db.reachable == old(db.reachable)
    ensures out.Ok? ==> out.value.displayFocus == DisplayFocus(prompt)
    ensures (!NoReply(reply) && parsed == Some(Null)) ==>
      out == Err(TypeError) && db.movies == old(db.movies) && db.actors == old(db.actors)
    ensures (!NoReply(reply) && parsed.Some? && !IsNullish(parsed.value) && ConversionThrows(ActionOf(parsed.value))) ==>
      out == Err(TypeError) && db.movies == old(db.movies) && db.actors == old(db.actors)
    ensures out.Ok? <==>
      (NoReply(reply) || parsed.None? || (!IsNullish(parsed.value) && !ConversionThrows(ActionOf(parsed.value))))
  {
    var isCountQuery := IsCountQuery(prompt);
    if NoReply(reply) {
      return Ok(WithFocus(prompt, Empty(ConnectFailure)));
    }
    if parsed.None? {
      return Ok(WithFocus(prompt, Empty(ParseFailure)));
    }
    if IsNullish(parsed.value) {
      return Err(TypeError);
    }
    var result := Route(db, parsed.value, isCountQuery);
    if result.Err? {
      return Err(result.error);
    }
    out := Ok(WithFocus(prompt, result.value));
  }
}
