/**
 * Store filters and the intent normaliser `upgradeQuery`, which turns an untrusted
 * filter into one the store can run: string values become case-insensitive anchored
 * patterns, a genre value becomes a case-insensitive substring pattern against the
 * legacy `Genre` text field, and numeric fields are compared as they are.
 */
module Query {
  import opened Wrappers
  import opened Text
  import opened Js

  const NumericKeys: set<string> := {"Id", "Year", "Runtime", "Rating", "Votes", "Revenue"}

  // ----- regular-expression escaping -----

  /** The characters the source escapes: `. * + ? ^ $ { } ( ) | [ ] \` */
  predicate IsRegexSpecial(c: char) {
    c in ".*+?^${}()|[]\\"
  }

  /** A pattern source in which every special character is escaped, so it denotes a literal text. */
  predicate IsLiteralPattern(p: string)
    decreases |p|
  {
    if p == [] then true
    else if p[0] == '\\' then |p| >= 2 && IsRegexSpecial(p[1]) && IsLiteralPattern(p[2..])
    else !IsRegexSpecial(p[0]) && IsLiteralPattern(p[1..])
  }

  /** `s.replace(/[.*+?^${}()|[\]\\]/g, "\\$&")`: a backslash before each special character. */
  function Escape(s: string): (r: string)
    ensures IsLiteralPattern(r)
  {
    if s == [] then []
    else
      var head := if IsRegexSpecial(s[0]) then ['\\', s[0]] else [s[0]];
      var rest := Escape(s[1..]);
      assert (head + rest)[|head|..] == rest;
      head + rest
  }

  /** The text a literal pattern stands for. */
  function Unescape(p: string): string {
    if p == [] then []
    else if p[0] == '\\' && |p| >= 2 then [p[1]] + Unescape(p[2..])
    else [p[0]] + Unescape(p[1..])
  }

  lemma {:induction false} UnescapeEscape(s: string)
    ensures Unescape(Escape(s)) == s
  {
    if s != [] {
      UnescapeEscape(s[1..]);
      var r := Escape(s);
      if IsRegexSpecial(s[0]) {
        assert r == ['\\', s[0]] + Escape(s[1..]);
        assert r[0] == '\\' && r[1] == s[0] && r[2..] == Escape(s[1..]);
        assert Unescape(r) == [s[0]] + Unescape(Escape(s[1..]));
      } else {
        assert r == [s[0]] + Escape(s[1..]);
        assert r[0] == s[0] && s[0] != '\\' && r[1..] == Escape(s[1..]);
        assert Unescape(r) == [s[0]] + Unescape(Escape(s[1..]));
      }
      assert s == [s[0]] + s[1..];
    }
  }

  lemma {:induction false} EscapeUnescape(p: string)
    requires IsLiteralPattern(p)
    ensures Escape(Unescape(p)) == p
  {
    if p != [] {
      if p[0] == '\\' {
        var u := [p[1]] + Unescape(p[2..]);
        EscapeUnescape(p[2..]);
        assert u[0] == p[1] && u[1..] == Unescape(p[2..]);
        assert p == ['\\', p[1]] + p[2..];
      } else {
        var u := [p[0]] + Unescape(p[1..]);
        EscapeUnescape(p[1..]);
        assert u[0] == p[0] && u[1..] == Unescape(p[1..]);
        assert p == [p[0]] + p[1..];
      }
    }
  }

  // ----- filters and what they match -----

  /**
   * The condition a filter puts on one field: equality with a JSON value, an anchored
   * case-insensitive pattern (`/^src$/i`), an unanchored case-insensitive pattern
   * (`/src/i`), or membership (`{$in: [...]}`).
   */
  datatype Cond = Eq(value: Value) | Exact(source: string) | Contains(source: string) | In(values: seq<Value>)

  type Filter = map<string, Cond>

  /** `{...q}` of an untrusted query, as a filter whose every field is compared for equality. */
  function AsFilter(q: Value): (f: Filter)
    ensures f.Keys == Spread(q).Keys
    ensures forall k :: k in f ==> f[k] == Eq(Spread(q)[k])
  {
    var o := Spread(q);
    map k | k in o :: Eq(o[k])
  }

  /** The value is `null` or `undefined` (`out.X != null` is false). */
  predicate IsNullCond(c: Cond) {
    c.Eq? && IsNullish(c.value)
  }

  /** `typeof out[key] === "string"` */
  predicate IsStringCond(c: Cond) {
    c.Eq? && c.value.Str?
  }

  /** `typeof out[key] === "object" && out[key].$regex` */
  predicate IsRegexCond(c: Cond) {
    c.Exact? || c.Contains? || (c.Eq? && c.value.Obj? && Truthy(Get(c.value.fields, "$regex")))
  }

  predicate EqualsQueryValue(v: Value, x: Value) {
    if IsNullish(x) then IsNullish(v) else v == x
  }

  /** One field value (an array field: one of its elements) against a condition. */
  predicate ValueSatisfies(v: Value, c: Cond) {
    match c
    case Eq(x) => EqualsQueryValue(v, x)
    case Exact(src) => v.Str? && Lower(v.s) == Lower(Unescape(src))
    case Contains(src) => v.Str? && HasInfix(Lower(v.s), Lower(Unescape(src)))
    case In(xs) => exists i :: 0 <= i < |xs| && EqualsQueryValue(v, xs[i])
  }

  /** A field value meets a condition itself or, if it is an array, through one of its elements. */
  predicate Holds(v: Value, c: Cond) {
    ValueSatisfies(v, c) || (v.Arr? && exists i :: 0 <= i < |v.elems| && ValueSatisfies(v.elems[i], c))
  }

  /** The store's matching of a document against a filter: every condition holds of its field. */
  predicate Matches(doc: Object, f: Filter) {
    forall k :: k in f ==> Holds(Get(doc, k), f[k])
  }

  /** An anchored escaped pattern matches exactly the texts equal to the original, up to case. */
  lemma ExactPatternMatches(s: string, t: string)
    ensures ValueSatisfies(Str(t), Exact(Escape(s))) <==> Lower(t) == Lower(s)
  {
    UnescapeEscape(s);
  }

  /** An unanchored escaped pattern matches exactly the texts containing the original, up to case. */
  lemma ContainsPatternMatches(s: string, t: string)
    ensures ValueSatisfies(Str(t), Contains(Escape(s))) <==> HasInfix(Lower(t), Lower(s))
  {
    UnescapeEscape(s);
  }

  // ----- upgradeQuery -----

  /** The pattern a genre value becomes: a string gives `/escaped(trimmed)/i`, anything else stays. */
  function GenreCond(c: Cond): (r: Cond)
    ensures !IsStringCond(r)
    ensures IsStringCond(c) ==> r == Contains(Escape(Trim(c.value.s)))
    ensures !IsStringCond(c) ==> r == c
  {
    if IsStringCond(c) then Contains(Escape(Trim(c.value.s))) else c
  }

  /** What the key loop does to one value: a string under a non-numeric key becomes `/^escaped$/i`. */
  function ExactCond(key: string, c: Cond): (r: Cond)
    ensures IsStringCond(c) && key !in NumericKeys ==> r == Exact(Escape(c.value.s))
    ensures !(IsStringCond(c) && key !in NumericKeys) ==> r == c
  {
    if IsStringCond(c) && key !in NumericKeys then Exact(Escape(c.value.s)) else c
  }

  /** A non-null `Genres` value is removed and moved, converted, to `Genre`. */
  function MovedGenres(q: Filter): Filter {
    if "Genres" in q && !IsNullCond(q["Genres"]) then (q - {"Genres"})["Genre" := GenreCond(q["Genres"])]
    else q
  }

  /** A string `Genre` value becomes a substring pattern. */
  function ConvertedGenre(q: Filter): Filter {
    if "Genre" in q && IsStringCond(q["Genre"]) then q["Genre" := GenreCond(q["Genre"])] else q
  }

  predicate GenresMoved(q: Filter) {
    "Genres" in q && !IsNullCond(q["Genres"])
  }

  /**
   * What `upgradeQuery` returns, key by key, or the `TypeError` it throws: a `Genre` of
   * `null` left in place passes `typeof out[key] === "object"`, and reading `$regex` of it
   * throws.
   */
  function Upgraded(q: Filter): (r: Result<Filter, Failure>)
    ensures r.Err? <==> !GenresMoved(q) && "Genre" in q && q["Genre"] == Eq(Null)
    ensures r.Err? ==> r.error == TypeError
    ensures r.Ok? ==> r.value.Keys == if GenresMoved(q) then q.Keys - {"Genres"} + {"Genre"} else q.Keys
    ensures r.Ok? ==> forall k :: k in q && k != "Genre" && k != "Genres" ==> r.value[k] == ExactCond(k, q[k])
    ensures r.Ok? && GenresMoved(q) ==> r.value["Genre"] == GenreCond(q["Genres"])
    ensures r.Ok? && "Genres" in q && !GenresMoved(q) ==> r.value["Genres"] == q["Genres"]
    ensures r.Ok? && !GenresMoved(q) && "Genre" in q ==> r.value["Genre"] == GenreCond(q["Genre"])
  {
    var m := ConvertedGenre(MovedGenres(q));
    if "Genre" in m && m["Genre"] == Eq(Null) then Err(TypeError) else Ok(ExactAll(m))
  }

  /** The key loop's effect on a whole filter. */
  function ExactAll(m: Filter): (r: Filter)
    ensures r.Keys == m.Keys
    ensures forall k :: k in m ==> r[k] == ExactCond(k, m[k])
  {
    map k | k in m :: ExactCond(k, m[k])
  }

  /** `upgradeQuery(q)`: works on a copy (a value here, so `q` itself cannot change). */
  method UpgradeQuery(q: Filter) returns (out: Result<Filter, Failure>)
    ensures out == Upgraded(q)
  {
    var copy := q;
    if "Genres" in copy && !IsNullCond(copy["Genres"]) {
      var val := copy["Genres"];
      copy := copy - {"Genres"};
      copy := copy["Genre" := GenreCond(val)];
    }
    if "Genre" in copy && IsStringCond(copy["Genre"]) {
      copy := copy["Genre" := GenreCond(copy["Genre"])];
    }
    assert copy == ConvertedGenre(MovedGenres(q));
    out := EscapeStrings(copy);
  }

  /**
   * The loop over the keys of `upgradeQuery`: each string value under a non-numeric key
   * is anchored, and a `Genre` of `null` throws when its `$regex` is read.
   */
  method EscapeStrings(start: Filter) returns (out: Result<Filter, Failure>)
    ensures out.Err? <==> "Genre" in start && start["Genre"] == Eq(Null)
    ensures out.Err? ==> out.error == TypeError
    ensures out.Ok? ==> out.value == ExactAll(start)
  {
    var cur := start;
    var pending := cur.Keys;
    while pending != {}
      invariant pending <= cur.Keys && cur.Keys == start.Keys
      invariant forall k :: k in cur && k !in pending ==> cur[k] == ExactCond(k, start[k])
      invariant forall k :: k in pending ==> cur[k] == start[k]
      invariant "Genre" in start && start["Genre"] == Eq(Null) ==> "Genre" in pending
      decreases pending
    {
      var key :| key in pending;
      pending := pending - {key};
      if key == "Genre" && cur[key] == Eq(Null) {
        return Err(TypeError);
      }
      if key == "Genre" && IsRegexCond(cur[key]) {
        continue;
      }
      if IsStringCond(cur[key]) && key !in NumericKeys {
        cur := cur[key := Exact(Escape(cur[key].value.s))];
      }
    }
    assert forall k :: k in cur ==> cur[k] == ExactAll(start)[k];
    out := Ok(cur);
  }

  /** Applied to its own output, the normaliser changes nothing. */
  lemma UpgradedIdempotent(q: Filter)
    requires Upgraded(q).Ok?
    ensures Upgraded(Upgraded(q).value) == Upgraded(q)
  {
    var r := Upgraded(q).value;
    assert !GenresMoved(r);
    assert "Genre" in r ==> !IsStringCond(r["Genre"]) && r["Genre"] != Eq(Null);
    assert ConvertedGenre(MovedGenres(r)) == r;
    assert forall k :: k in r ==> ExactCond(k, r[k]) == r[k];
    assert ExactAll(r) == r;
  }

  /** The normalised filter is empty exactly when the query is; an empty query never throws. */
  lemma UpgradedEmpty(q: Filter)
    ensures Upgraded(q) == Ok(map[]) <==> q == map[]
  {
    if q != map[] && Upgraded(q).Ok? {
      var k :| k in q;
      assert k in Upgraded(q).value || "Genre" in Upgraded(q).value;
    }
  }

  /** A `Genre` of `null` throws, whatever else the query holds, unless a `Genres` value replaces it. */
  lemma NullGenreThrows(q: Filter)
    requires "Genre" in q && q["Genre"] == Eq(Null)
    requires "Genres" !in q || IsNullCond(q["Genres"])
    ensures Upgraded(q) == Err(TypeError)
  {
  }
}
