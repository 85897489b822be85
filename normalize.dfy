/**
 * The normalisers of the intent layer. On the read side, `normalizeActors`, `toGenres`
 * and `toMovie` turn what the store holds (legacy comma-separated text, lists of bare
 * names, partial objects) into canonical lists. On the write side,
 * `normalizeActorPayload` and `normalizeMoviePayload` accept an item only with a
 * usable `Id` and name or title, and give it a fixed shape.
 */
module Normalize {
  import opened Wrappers
  import opened Text
  import opened Js

  // ----- comma-separated text -----

  lemma TrimKeepsOut(s: string, c: char)
    requires c !in s
    ensures c !in Trim(s)
  {
    var k := |s| - |TrimStart(s)|;
    var r := Trim(s);
    TrimIsSlice(s);
    forall i | 0 <= i < |r| ensures r[i] != c {
      assert r[i] == s[k + i];
    }
  }

  /** `.map((s) => s.trim()).filter(Boolean)` */
  function TrimmedParts(parts: seq<string>): (r: seq<string>)
    ensures forall i :: 0 <= i < |r| ==> r[i] != [] && IsTrimmed(r[i])
  {
    if parts == [] then []
    else
      var t := Trim(parts[0]);
      var rest := TrimmedParts(parts[1..]);
      if t == [] then rest else [t] + rest
  }

  /** A character no part contains is in no trimmed part. */
  lemma {:induction false} TrimmedPartsKeepOut(parts: seq<string>, c: char)
    requires forall j :: 0 <= j < |parts| ==> c !in parts[j]
    ensures forall i :: 0 <= i < |TrimmedParts(parts)| ==> c !in TrimmedParts(parts)[i]
  {
    if parts != [] {
      TrimmedPartsKeepOut(parts[1..], c);
      TrimKeepsOut(parts[0], c);
    }
  }

  /** Every part that is not blank is kept, trimmed. */
  lemma {:induction false} TrimmedPartsKeepNonBlank(parts: seq<string>, j: int)
    requires 0 <= j < |parts| && !IsBlank(parts[j])
    ensures Trim(parts[j]) in TrimmedParts(parts)
  {
    if j > 0 {
      TrimmedPartsKeepNonBlank(parts[1..], j - 1);
    }
  }

  /** `s.split(",").map((s) => s.trim()).filter(Boolean)`: the non-blank segments, trimmed. */
  function CsvSegments(s: string): (r: seq<string>)
    ensures forall i :: 0 <= i < |r| ==> Clean(r[i])
  {
    TrimmedPartsKeepOut(Split(s, ','), ',');
    TrimmedParts(Split(s, ','))
  }

  /** A part that is already trimmed and not empty. */
  predicate Clean(part: string) {
    part != [] && IsTrimmed(part) && ',' !in part
  }

  lemma {:induction false} TrimmedPartsOfClean(parts: seq<string>)
    requires forall i :: 0 <= i < |parts| ==> Clean(parts[i])
    ensures TrimmedParts(parts) == parts
  {
    if parts != [] {
      TrimmedPartsOfClean(parts[1..]);
      TrimOfTrimmed(parts[0]);
    }
  }

  /** Clean segments joined with commas are read back as they were. */
  lemma CsvSegmentsOfJoin(parts: seq<string>)
    requires |parts| >= 1
    requires forall i :: 0 <= i < |parts| ==> Clean(parts[i])
    ensures CsvSegments(Join(parts, ",")) == parts
  {
    SplitJoin(parts, ',');
    TrimmedPartsOfClean(parts);
  }

  // ----- normalizeActors -----

  /** An entry of a movie's actor list, `{ Id, Name }`. */
  datatype ActorRef = ActorRef(id: Value, name: Value)

  function RefObject(a: ActorRef): Value {
    Obj(map["Id" := a.id, "Name" := a.name])
  }

  function RefObjects(rs: seq<ActorRef>): (vs: seq<Value>)
    ensures |vs| == |rs|
    ensures forall i :: 0 <= i < |rs| ==> vs[i] == RefObject(rs[i])
  {
    seq(|rs|, i requires 0 <= i < |rs| => RefObject(rs[i]))
  }

  /** An entry a normaliser hands out: a truthy name, and an `Id` that is `null` or a number. */
  predicate Canonical(a: ActorRef) {
    Truthy(a.name) && (a.id.Null? || IsNumber(a.id))
  }

  /** One element of an actor list: a bare name, or an object with a truthy `Name`; anything else is dropped. */
  function ActorOf(x: Value): (r: Option<ActorRef>)
    ensures r.Some? ==> Canonical(r.value)
    ensures r.Some? <==> (x.Str? && x.s != []) || (x.Obj? && Truthy(Get(x.fields, "Name")))
  {
    match x
    case Str(s) => if s == [] then None else Some(ActorRef(Null, x))
    case Obj(f) =>
      if !Truthy(Get(f, "Name")) then None
      else
        var id := Get(f, "Id");
        Some(ActorRef(if IsNullish(id) then Null else ToNumber(id), Get(f, "Name")))
    case _ => None
  }

  /** `actors.map(...).filter((a) => a && a.Name)` */
  function ActorsOfList(xs: seq<Value>): (r: seq<ActorRef>)
    ensures |r| <= |xs|
    ensures forall i :: 0 <= i < |r| ==> Canonical(r[i])
  {
    if xs == [] then []
    else
      var rest := ActorsOfList(xs[1..]);
      match ActorOf(xs[0])
      case Some(a) => [a] + rest
      case None => rest
  }

  function NamesOf(names: seq<string>): (r: seq<ActorRef>)
    ensures |r| == |names|
    ensures forall i :: 0 <= i < |r| ==> r[i] == ActorRef(Null, Str(names[i]))
  {
    seq(|names|, i requires 0 <= i < |names| => ActorRef(Null, Str(names[i])))
  }

  /** `normalizeActors(actors)`: always a list of entries with a non-empty name. */
  function NormalizeActors(actors: Value): (r: seq<ActorRef>)
    ensures forall i :: 0 <= i < |r| ==> Canonical(r[i])
    ensures !Truthy(actors) || !(actors.Str? || actors.Arr?) ==> r == []
    ensures actors.Str? ==> r == NamesOf(CsvSegments(actors.s))
    ensures actors.Arr? ==> r == ActorsOfList(actors.elems)
  {
    if !Truthy(actors) then []
    else if actors.Str? then NamesOf(CsvSegments(actors.s))
    else if !actors.Arr? then []
    else ActorsOfList(actors.elems)
  }

  /** Names read from text are trimmed, non-empty, free of commas, and carry a `null` Id. */
  lemma CsvActorsAreClean(s: string)
    ensures forall i :: 0 <= i < |NormalizeActors(Str(s))| ==>
      NormalizeActors(Str(s))[i].id == Null && NormalizeActors(Str(s))[i].name.Str? && Clean(NormalizeActors(Str(s))[i].name.s)
  {
    var names := CsvSegments(s);
    if s != [] {
      assert NormalizeActors(Str(s)) == NamesOf(names);
    }
  }

  lemma {:induction false} ActorsOfCanonical(rs: seq<ActorRef>)
    requires forall i :: 0 <= i < |rs| ==> Canonical(rs[i])
    ensures ActorsOfList(RefObjects(rs)) == rs
  {
    if rs != [] {
      var vs := RefObjects(rs);
      assert vs[1..] == RefObjects(rs[1..]);
      ActorsOfCanonical(rs[1..]);
      ToNumberIdempotent(rs[0].id);
      assert ActorOf(vs[0]) == Some(rs[0]);
    }
  }

  /** Normalising an already normalised list changes nothing. */
  lemma NormalizeActorsFixpoint(actors: Value)
    ensures NormalizeActors(Arr(RefObjects(NormalizeActors(actors)))) == NormalizeActors(actors)
  {
    var r := NormalizeActors(actors);
    ActorsOfCanonical(r);
  }

  // ----- toGenres and toMovie -----

  function StrValues(parts: seq<string>): (vs: seq<Value>)
    ensures |vs| == |parts|
    ensures forall i :: 0 <= i < |parts| ==> vs[i] == Str(parts[i])
  {
    seq(|parts|, i requires 0 <= i < |parts| => Str(parts[i]))
  }

  /** `toGenres(genres, genreStr)`: a non-empty list as it is, else the segments of the legacy text, else `[]`. */
  function ToGenres(genres: Value, genreStr: Value): (r: seq<Value>)
    ensures genres.Arr? && genres.elems != [] ==> r == genres.elems
    ensures !(genres.Arr? && genres.elems != []) && genreStr.Str? ==> r == StrValues(CsvSegments(genreStr.s))
    ensures !(genres.Arr? && genres.elems != []) && !genreStr.Str? ==> r == []
  {
    if genres.Arr? && |genres.elems| > 0 then genres.elems
    else if genreStr.Str? then StrValues(CsvSegments(genreStr.s))
    else []
  }

  /** Legacy genre text of clean segments is read as exactly those genres. */
  lemma GenresOfJoinedText(parts: seq<string>)
    requires |parts| >= 1
    requires forall i :: 0 <= i < |parts| ==> Clean(parts[i])
    ensures ToGenres(Arr([]), Str(Join(parts, ","))) == StrValues(parts)
  {
    CsvSegmentsOfJoin(parts);
  }

  /** Feeding the genre list back in, next to the same legacy text, gives the same list. */
  lemma ToGenresStable(genres: Value, genreStr: Value)
    ensures ToGenres(Arr(ToGenres(genres, genreStr)), genreStr) == ToGenres(genres, genreStr)
  {
  }

  /** `toMovie(doc)`: the record with canonical `Genres` and `Actors` lists and every other field as stored. */
  function ToMovie(obj: Object): (m: Object)
    ensures m.Keys == obj.Keys + {"Genres", "Actors"}
    ensures forall k :: k in obj && k != "Genres" && k != "Actors" ==> m[k] == obj[k]
    ensures m["Genres"] == Arr(ToGenres(Get(obj, "Genres"), Get(obj, "Genre")))
    ensures m["Actors"] == Arr(RefObjects(NormalizeActors(Get(obj, "Actors"))))
  {
    obj["Genres" := Arr(ToGenres(Get(obj, "Genres"), Get(obj, "Genre")))]
       ["Actors" := Arr(RefObjects(NormalizeActors(Get(obj, "Actors"))))]
  }

  /** A record already passed through `toMovie` comes out of it unchanged. */
  lemma ToMovieIdempotent(obj: Object)
    ensures ToMovie(ToMovie(obj)) == ToMovie(obj)
  {
    var m := ToMovie(obj);
    ToGenresStable(Get(obj, "Genres"), Get(obj, "Genre"));
    NormalizeActorsFixpoint(Get(obj, "Actors"));
    assert Get(m, "Genre") == Get(obj, "Genre");
    assert ToMovie(m).Keys == m.Keys;
  }

  /** The `Movie.Actors` field resolver, run on a record `toMovie` produced, gives the same list. */
  lemma ActorsResolverAfterToMovie(obj: Object)
    ensures RefObjects(NormalizeActors(Get(ToMovie(obj), "Actors"))) == ToMovie(obj)["Actors"].elems
  {
    NormalizeActorsFixpoint(Get(obj, "Actors"));
  }

  // ----- write side -----

  /** `m.Title || m.title` */
  function Chosen(item: Object, key: string, fallback: string): Value {
    if Truthy(Get(item, key)) then Get(item, key) else Get(item, fallback)
  }

  /** `typeof t === "string" && t.trim()` */
  predicate UsableText(t: Value) {
    t.Str? && Trim(t.s) != []
  }

  /** `normalizeActorPayload(a)`: `{ Id, Name }` with a finite Id and a non-blank name, or null. */
  function NormalizeActorPayload(a: Object): (r: Option<Object>)
    ensures r.Some? <==> IsFinite(ToNumber(Get(a, "Id"))) && UsableText(Chosen(a, "Name", "name"))
    ensures r.Some? ==> r.value.Keys == {"Id", "Name"}
    ensures r.Some? ==> r.value["Id"] == ToNumber(Get(a, "Id")) && r.value["Name"] == Chosen(a, "Name", "name")
  {
    var id := ToNumber(Get(a, "Id"));
    var name := Chosen(a, "Name", "name");
    if IsFinite(id) && UsableText(name) then Some(map["Id" := id, "Name" := name]) else None
  }

  /** `normalizeActorPayload(a)` throws: `Number(a.Id)` cannot convert the Id. */
  predicate ActorPayloadThrows(a: Object) {
    ConversionThrows(Get(a, "Id"))
  }

  /** Where JS throws, the value-level normaliser rejects the item. */
  lemma ActorPayloadThrowsRejects(a: Object)
    requires ActorPayloadThrows(a)
    ensures NormalizeActorPayload(a).None?
  {
    ConversionThrowsIsNaN(Get(a, "Id"));
  }

  /** An accepted actor item is accepted again, unchanged. */
  lemma ActorPayloadIdempotent(a: Object)
    requires NormalizeActorPayload(a).Some?
    ensures NormalizeActorPayload(NormalizeActorPayload(a).value) == NormalizeActorPayload(a)
  {
    var v := NormalizeActorPayload(a).value;
    assert Truthy(Get(v, "Name"));
  }

  const MovieNumberFields: set<string> := {"Year", "Runtime", "Rating", "Votes", "Revenue"}

  /** The keys of every movie item `normalizeMoviePayload` builds. */
  const MovieItemKeys: set<string> :=
    {"Id", "Title", "Genres", "Description", "Director", "Actors"} + MovieNumberFields

  /** `m.Year != null ? Number(m.Year) : undefined` */
  function OptionalNumber(v: Value): (r: Value)
    ensures IsNullish(v) ==> r == Undefined
    ensures !IsNullish(v) ==> IsNumber(r) && r == ToNumber(v)
  {
    if IsNullish(v) then Undefined else ToNumber(v)
  }

  /** `Array.isArray(g) ? g : g ? [g] : []` */
  function GenreList(g: Value): (r: Value)
    ensures r.Arr?
    ensures g.Arr? ==> r == g
    ensures !g.Arr? ==> r.elems == (if Truthy(g) then [g] else [])
  {
    if g.Arr? then g else if Truthy(g) then Arr([g]) else Arr([])
  }

  /** `a ?? b` */
  function Coalesce(a: Value, b: Value): Value {
    if IsNullish(a) then b else a
  }

  /** The value `normalizeMoviePayload` gives the key `k` of its result (for an accepted item). */
  function MovieItemField(m: Object, k: string): Value {
    if k == "Id" then ToNumber(Get(m, "Id"))
    else if k == "Title" then Chosen(m, "Title", "title")
    else if k == "Genres" then GenreList(Get(m, "Genres"))
    else if k == "Description" then Coalesce(Get(m, "Description"), Get(m, "description"))
    else if k == "Director" then Coalesce(Get(m, "Director"), Get(m, "director"))
    else if k == "Actors" then (if Get(m, "Actors").Arr? then Get(m, "Actors") else Arr([]))
    else OptionalNumber(Get(m, k))
  }

  /** `normalizeMoviePayload(m)`: a movie item of fixed shape, or null without a finite Id and a usable title. */
  function NormalizeMoviePayload(m: Object): (r: Option<Object>)
    ensures r.Some? <==> IsFinite(ToNumber(Get(m, "Id"))) && UsableText(Chosen(m, "Title", "title"))
    ensures r.Some? ==> r.value.Keys == MovieItemKeys
    ensures r.Some? ==> r.value["Id"] == ToNumber(Get(m, "Id")) && r.value["Title"] == Chosen(m, "Title", "title")
    ensures r.Some? ==> r.value["Genres"] == GenreList(Get(m, "Genres"))
    ensures r.Some? ==> r.value["Actors"] == (if Get(m, "Actors").Arr? then Get(m, "Actors") else Arr([]))
    ensures r.Some? ==> r.value["Description"] == Coalesce(Get(m, "Description"), Get(m, "description"))
    ensures r.Some? ==> r.value["Director"] == Coalesce(Get(m, "Director"), Get(m, "director"))
    ensures r.Some? ==> forall k :: k in MovieNumberFields ==> r.value[k] == OptionalNumber(Get(m, k))
  {
    var id := ToNumber(Get(m, "Id"));
    var title := Chosen(m, "Title", "title");
    if !IsFinite(id) || !UsableText(title) then None
    else Some(map k | k in MovieItemKeys :: MovieItemField(m, k))
  }

  /**
   * `normalizeMoviePayload(m)` throws. `Number(m.Id)` cannot convert the Id, or the item
   * passes the guard and one of the `Number(...)` of a non-nullish number field cannot
   * convert its value.
   */
  predicate MoviePayloadThrows(m: Object) {
    ConversionThrows(Get(m, "Id"))
    || (NormalizeMoviePayload(m).Some?
        && exists k :: k in MovieNumberFields && !IsNullish(Get(m, k)) && ConversionThrows(Get(m, k)))
  }

  /** Where JS throws at the Id, the value-level normaliser rejects the item. */
  lemma MovieIdThrowsRejects(m: Object)
    requires ConversionThrows(Get(m, "Id"))
    ensures NormalizeMoviePayload(m).None?
  {
    ConversionThrowsIsNaN(Get(m, "Id"));
  }

  /** An accepted movie item is accepted again with the same Id, title, lists and numbers. */
  lemma MoviePayloadStable(m: Object)
    requires NormalizeMoviePayload(m).Some?
    ensures var v := NormalizeMoviePayload(m).value;
      NormalizeMoviePayload(v).Some? && NormalizeMoviePayload(v).value["Id"] == v["Id"]
      && NormalizeMoviePayload(v).value["Title"] == v["Title"]
      && NormalizeMoviePayload(v).value["Genres"] == v["Genres"]
      && NormalizeMoviePayload(v).value["Actors"] == v["Actors"]
    ensures var v := NormalizeMoviePayload(m).value;
      forall k :: k in MovieNumberFields ==> NormalizeMoviePayload(v).value[k] == v[k]
  {
    var v := NormalizeMoviePayload(m).value;
    assert Truthy(Get(v, "Title"));
    forall k | k in MovieNumberFields
      ensures OptionalNumber(Get(v, k)) == v[k]
    {
      ToNumberIdempotent(Get(m, k));
    }
  }
}
