/**
 * The two collections the handlers run against, with the store operations they call:
 * `find`, `countDocuments`, `insertMany`, `findOneAndUpdate` with `$set` and
 * `deleteMany`. A collection is the sequence of its documents in natural order; the
 * unique index on `Id` is the invariant that no two documents share an `Id`.
 */
module Store {
  import opened Wrappers
  import opened Js
  import opened Schema
  import opened Query

  type Doc = Object

  type Collection = seq<Doc>

  function IdOf(d: Doc): Value {
    Get(d, "Id")
  }

  function IdsOf(c: Collection): (ids: seq<Value>)
    ensures |ids| == |c|
    ensures forall i :: 0 <= i < |c| ==> ids[i] == IdOf(c[i])
  {
    seq(|c|, i requires 0 <= i < |c| => IdOf(c[i]))
  }

  /** `after` is `before` with documents appended whose Ids `before` does not hold. */
  predicate Grows(before: Collection, after: Collection) {
    before <= after && forall i :: |before| <= i < |after| ==> IdOf(after[i]) !in IdsOf(before)
  }

  /** The unique index on `Id`. */
  predicate UniqueIds(c: Collection) {
    forall i, j :: 0 <= i < j < |c| ==> IdOf(c[i]) != IdOf(c[j])
  }

  // ----- matching -----

  /** The documents a filter matches, in natural order. */
  function Select(c: Collection, f: Filter): (r: Collection)
    ensures |r| <= |c|
    ensures forall d :: d in r ==> d in c && Matches(d, f)
    ensures forall d :: d in c && Matches(d, f) ==> d in r
  {
    if c == [] then []
    else (if Matches(c[0], f) then [c[0]] else []) + Select(c[1..], f)
  }

  /** The documents a filter does not match, in natural order. */
  function Reject(c: Collection, f: Filter): (r: Collection)
    ensures |r| <= |c|
    ensures forall d :: d in r ==> d in c && !Matches(d, f)
    ensures forall d :: d in c && !Matches(d, f) ==> d in r
  {
    if c == [] then []
    else (if Matches(c[0], f) then [] else [c[0]]) + Reject(c[1..], f)
  }

  /** Every document is either selected or rejected. */
  lemma {:induction false} SelectRejectSplit(c: Collection, f: Filter)
    ensures |Select(c, f)| + |Reject(c, f)| == |c|
  {
    if c != [] {
      SelectRejectSplit(c[1..], f);
    }
  }

  /** Dropping documents keeps the unique index. */
  lemma {:induction false} RejectKeepsUnique(c: Collection, f: Filter)
    requires UniqueIds(c)
    ensures UniqueIds(Reject(c, f))
  {
    if c != [] {
      var tail := c[1..];
      assert UniqueIds(tail) by {
        forall i, j | 0 <= i < j < |tail| ensures IdOf(tail[i]) != IdOf(tail[j]) {
          assert tail[i] == c[i + 1] && tail[j] == c[j + 1];
        }
      }
      RejectKeepsUnique(tail, f);
      var rest := Reject(tail, f);
      if !Matches(c[0], f) {
        var r := [c[0]] + rest;
        forall i, j | 0 <= i < j < |r| ensures IdOf(r[i]) != IdOf(r[j]) {
          if i == 0 {
            assert r[j] in tail;
            var k :| 0 <= k < |tail| && tail[k] == r[j];
            assert c[k + 1] == r[j];
          } else {
            assert r[i] == rest[i - 1] && r[j] == rest[j - 1];
          }
        }
      }
    }
  }

  /** The empty filter matches every document. */
  lemma {:induction false} SelectAll(c: Collection)
    ensures Select(c, map[]) == c
  {
    if c != [] {
      SelectAll(c[1..]);
      assert c == [c[0]] + c[1..];
    }
  }

  /** A filter that matches nothing rejects nothing. */
  lemma {:induction false} RejectNone(c: Collection, f: Filter)
    requires |Select(c, f)| == 0
    ensures Reject(c, f) == c
  {
    if c != [] {
      RejectNone(c[1..], f);
      assert c == [c[0]] + c[1..];
    }
  }

  /** `{Id: {$in: ids}}` */
  function IdIn(ids: seq<Value>): Filter {
    map["Id" := In(ids)]
  }

  /** A lookup by a list of Ids needs no cast. */
  lemma CastIdIn(k: Kind, ids: seq<Value>)
    ensures CastFilter(k, IdIn(ids)) == Ok(IdIn(ids))
  {
    var f := IdIn(ids);
    assert forall key :: key in f ==> key == "Id" && CondCasts(k, key, f[key]);
    var g := CastFilter(k, f).value;
    assert g.Keys == f.Keys;
    assert g["Id"] == CastCond(k, "Id", In(ids)) == In(ids);
    assert g == f;
  }

  /** Looking a list of Ids up finds a document for each of them that is stored. */
  lemma IdInFindsStored(c: Collection, ids: seq<Value>, v: Value)
    requires v in ids && !IsNullish(v)
    ensures v in IdsOf(Select(c, IdIn(ids))) <==> v in IdsOf(c)
  {
    var r := Select(c, IdIn(ids));
    if v in IdsOf(c) {
      var j :| 0 <= j < |c| && IdsOf(c)[j] == v;
      var i :| 0 <= i < |ids| && ids[i] == v;
      assert EqualsQueryValue(IdOf(c[j]), ids[i]);
      assert Holds(Get(c[j], "Id"), In(ids));
      assert Matches(c[j], IdIn(ids));
      assert c[j] in r;
      var m :| 0 <= m < |r| && r[m] == c[j];
      assert IdsOf(r)[m] == v;
    }
    if v in IdsOf(r) {
      var m :| 0 <= m < |r| && IdsOf(r)[m] == v;
      assert r[m] in c;
      var j :| 0 <= j < |c| && c[j] == r[m];
      assert IdsOf(c)[j] == v;
    }
  }

  /** The first document a filter matches. */
  function FirstMatch(c: Collection, f: Filter): (r: Option<nat>)
    ensures r.Some? ==> r.value < |c| && Matches(c[r.value], f)
    ensures r.Some? ==> forall j :: 0 <= j < r.value ==> !Matches(c[j], f)
    ensures r.None? ==> forall j :: 0 <= j < |c| ==> !Matches(c[j], f)
  {
    if c == [] then None
    else if Matches(c[0], f) then Some(0)
    else match FirstMatch(c[1..], f)
      case None => None
      case Some(i) => Some(i + 1)
  }

  // ----- casting to the schema -----

  /** Mongoose's cast of a value stored at a `Number` path; it refuses any array. */
  function CastNumber(v: Value): (r: Result<Value, Fault>)
    ensures r.Ok? ==> IsNullish(r.value) || (IsNumber(r.value) && !r.value.NaN?)
    ensures IsNumber(v) && !v.NaN? ==> r == Ok(v)
    ensures r.Err? <==> !IsNullish(v) && v != Str("") && (v.Arr? || ToNumber(v).NaN?)
  {
    if IsNullish(v) then Ok(v)
    else if v == Str("") then Ok(Null)
    else if v.Arr? || ToNumber(v).NaN? then Err(CastFailed)
    else Ok(ToNumber(v))
  }

  /**
   * The implicit `$in`: an array given for a schema path that is not itself declared as an
   * array stands for any one of its elements.
   */
  predicate ImplicitIn(k: Kind, key: string, c: Cond) {
    c.Eq? && c.value.Arr? && key in Paths(k) && key !in ListPaths(k)
  }

  predicate CondCasts(k: Kind, key: string, c: Cond) {
    if ImplicitIn(k, key, c) then
      key !in NumericPaths(k) || forall i :: 0 <= i < |c.value.elems| ==> CastNumber(c.value.elems[i]).Ok?
    else !(key in NumericPaths(k) && c.Eq? && CastNumber(c.value).Err?)
  }

  /** The elements of an implicit `$in`, each cast to the path. */
  function CastElems(k: Kind, key: string, xs: seq<Value>): (ys: seq<Value>)
    requires key in NumericPaths(k) ==> forall i :: 0 <= i < |xs| ==> CastNumber(xs[i]).Ok?
    ensures |ys| == |xs|
    ensures forall i :: 0 <= i < |xs| ==> ys[i] == if key in NumericPaths(k) then CastNumber(xs[i]).value else xs[i]
  {
    if key in NumericPaths(k) then seq(|xs|, i requires 0 <= i < |xs| => CastNumber(xs[i]).value) else xs
  }

  function CastCond(k: Kind, key: string, c: Cond): Cond
    requires CondCasts(k, key, c)
  {
    if ImplicitIn(k, key, c) then In(CastElems(k, key, c.value.elems))
    else if key in NumericPaths(k) && c.Eq? then Eq(CastNumber(c.value).value)
    else c
  }

  /**
   * A filter cast to the schema: an equality on a `Number` path compares the cast value, and
   * an array on a path not declared as an array becomes `$in` of its cast elements.
   */
  function CastFilter(k: Kind, f: Filter): (r: Result<Filter, Fault>)
    ensures r.Ok? <==> forall key :: key in f ==> CondCasts(k, key, f[key])
    ensures r.Ok? ==> r.value.Keys == f.Keys
    ensures r.Ok? ==> forall key :: key in f ==> r.value[key] == CastCond(k, key, f[key])
  {
    if forall key :: key in f ==> CondCasts(k, key, f[key]) then
      Ok(map key | key in f :: CastCond(k, key, f[key]))
    else Err(CastFailed)
  }

  /**
   * An array of values for a path that is not an array (numbers, for a `Number` path) is the
   * `$in` lookup of those values: `{Id: [3, 4]}` is `{Id: {$in: [3, 4]}}`.
   */
  lemma ArrayIsIn(k: Kind, key: string, xs: seq<Value>)
    requires key in Paths(k) && key !in ListPaths(k)
    requires key in NumericPaths(k) ==> forall i :: 0 <= i < |xs| ==> IsNumber(xs[i]) && !xs[i].NaN?
    ensures CastFilter(k, map[key := Eq(Arr(xs))]) == Ok(map[key := In(xs)])
  {
    var f := map[key := Eq(Arr(xs))];
    assert CondCasts(k, key, f[key]);
    assert CastElems(k, key, xs) == xs;
    var g := CastFilter(k, f).value;
    assert g.Keys == f.Keys;
    assert g[key] == In(xs);
    assert g == map[key := In(xs)];
  }

  /** In particular, a delete by a list of Ids removes exactly the stored documents with those Ids. */
  lemma DeleteByIdList(c: Collection, k: Kind, ids: seq<Value>)
    requires forall i :: 0 <= i < |ids| ==> IsNumber(ids[i]) && !ids[i].NaN?
    ensures DeleteManyOp(c, k, map["Id" := Eq(Arr(ids))]) == Outcome(Reject(c, IdIn(ids)), Ok(|Select(c, IdIn(ids))|))
  {
    ArrayIsIn(k, "Id", ids);
  }

  /** An empty array for a path that is not an array matches no document at all. */
  lemma {:induction false} EmptyArrayMatchesNothing(c: Collection, k: Kind, key: string)
    requires key in Paths(k) && key !in ListPaths(k)
    ensures CastFilter(k, map[key := Eq(Arr([]))]) == Ok(map[key := In([])])
    ensures Select(c, map[key := In([])]) == []
  {
    ArrayIsIn(k, key, []);
    if c != [] {
      EmptyArrayMatchesNothing(c[1..], k, key);
      assert !Matches(c[0], map[key := In([])]) by {
        assert !Holds(Get(c[0], key), In([]));
      }
    }
  }

  /** Every `Number` path of the schema is one that `upgradeQuery` leaves to this cast. */
  lemma NumericPathsExempt(k: Kind)
    ensures NumericPaths(k) <= NumericKeys
  {
  }

  /** What a strict schema keeps of an object: its schema paths that are not `undefined`. */
  function Stripped(k: Kind, o: Object): (s: Object)
    ensures s.Keys <= Paths(k) && s.Keys <= o.Keys
    ensures forall key :: key in o && key in Paths(k) && !o[key].Undefined? ==> key in s && s[key] == o[key]
    ensures forall key :: key in s ==> !s[key].Undefined?
  {
    map key | key in o && key in Paths(k) && !o[key].Undefined? :: o[key]
  }

  predicate FieldCasts(k: Kind, key: string, v: Value) {
    key !in NumericPaths(k) || CastNumber(v).Ok?
  }

  function CastField(k: Kind, key: string, v: Value): Value
    requires FieldCasts(k, key, v)
  {
    if key in NumericPaths(k) then CastNumber(v).value else v
  }

  /** The fields of an insert or a `$set`, stripped and cast to the schema. */
  function CastFields(k: Kind, o: Object): (r: Result<Object, Fault>)
    ensures r.Ok? <==> forall key :: key in Stripped(k, o) ==> FieldCasts(k, key, Stripped(k, o)[key])
    ensures r.Ok? ==> r.value.Keys == Stripped(k, o).Keys
    ensures r.Ok? ==> forall key :: key in r.value ==> r.value[key] == CastField(k, key, o[key])
  {
    var s := Stripped(k, o);
    if forall key :: key in s ==> FieldCasts(k, key, s[key]) then
      Ok(map key | key in s :: CastField(k, key, s[key]))
    else Err(CastFailed)
  }

  /** A document as the schema requires it: a non-null `Id` and a non-empty required text. */
  predicate Conforms(k: Kind, d: Doc) {
    d.Keys <= Paths(k) && "Id" in d && !IsNullish(d["Id"])
    && RequiredText(k) in d && d[RequiredText(k)].Str? && d[RequiredText(k)].s != []
  }

  /** One item of `insertMany`, cast and validated. */
  function Prepare(k: Kind, item: Object): (r: Result<Doc, Fault>)
    ensures r.Ok? ==> Conforms(k, r.value)
    ensures r.Ok? ==> r == CastFields(k, item)
  {
    match CastFields(k, item)
    case Err(e) => Err(e)
    case Ok(d) => if Conforms(k, d) then Ok(d) else Err(ValidationFailed)
  }

  /** A valid item with a finite `Id` is stored under that same `Id`. */
  lemma PrepareKeepsId(k: Kind, item: Object)
    requires Prepare(k, item).Ok? && IsFinite(Get(item, "Id"))
    ensures IdOf(Prepare(k, item).value) == Get(item, "Id")
  {
    var d := Prepare(k, item).value;
    assert "Id" in d;
    assert d["Id"] == CastField(k, "Id", item["Id"]);
  }

  /** All items of `insertMany`, or the fault of the first one that fails. */
  function PrepareAll(k: Kind, items: seq<Object>): (r: Result<seq<Doc>, Fault>)
    ensures r.Ok? ==> |r.value| == |items|
    ensures r.Ok? ==> forall i :: 0 <= i < |items| ==> Prepare(k, items[i]) == Ok(r.value[i])
  {
    if items == [] then Ok([])
    else match Prepare(k, items[0])
      case Err(e) => Err(e)
      case Ok(d) =>
        match PrepareAll(k, items[1..])
        case Err(e) => Err(e)
        case Ok(ds) =>
          assert forall i :: 1 <= i < |items| ==> items[i] == items[1..][i - 1] && ([d] + ds)[i] == ds[i - 1];
          Ok([d] + ds)
  }

  /** A batch is refused only because one of its items is. */
  lemma {:induction false} PrepareAllFails(k: Kind, items: seq<Object>)
    requires PrepareAll(k, items).Err?
    ensures exists i :: 0 <= i < |items| && Prepare(k, items[i]) == Err(PrepareAll(k, items).error)
  {
    if Prepare(k, items[0]).Ok? {
      PrepareAllFails(k, items[1..]);
      var i :| 0 <= i < |items[1..]| && Prepare(k, items[1..][i]) == Err(PrepareAll(k, items[1..]).error);
      assert items[i + 1] == items[1..][i];
    }
  }

  // ----- the operations, on one collection -----

  /** What an operation leaves in the collection, and what it returns or the fault it throws. */
  datatype Outcome<T> = Outcome(coll: Collection, result: Result<T, Fault>)

  lemma IdsOfAppend(a: Collection, b: Collection)
    ensures IdsOf(a + b) == IdsOf(a) + IdsOf(b)
  {
  }

  /**
   * The ordered insert: documents go in one after another, and the first one whose
   * `Id` is already present stops the batch; the ones before it stay inserted.
   */
  function InsertAll(c: Collection, ds: seq<Doc>): (ins: seq<Doc>)
    ensures |ins| <= |ds| && ins == ds[..|ins|]
    ensures |ins| < |ds| ==> IdOf(ds[|ins|]) in IdsOf(c + ins)
    decreases |ds|
  {
    if ds == [] then []
    else if IdOf(ds[0]) in IdsOf(c) then
      assert c + [] == c;
      []
    else
      var rest := InsertAll(c + [ds[0]], ds[1..]);
      assert c + [ds[0]] + rest == c + ([ds[0]] + rest);
      [ds[0]] + rest
  }

  /** No inserted document takes an `Id` that was present before. */
  lemma {:induction false} InsertAllNew(c: Collection, ds: seq<Doc>)
    ensures forall i :: 0 <= i < |InsertAll(c, ds)| ==> IdOf(InsertAll(c, ds)[i]) !in IdsOf(c)
    decreases |ds|
  {
    if ds != [] && IdOf(ds[0]) !in IdsOf(c) {
      var c1 := c + [ds[0]];
      InsertAllNew(c1, ds[1..]);
      IdsOfAppend(c, [ds[0]]);
      var ins := InsertAll(c, ds);
      assert ins == [ds[0]] + InsertAll(c1, ds[1..]);
      forall i | 0 <= i < |ins| ensures IdOf(ins[i]) !in IdsOf(c) {
        if i > 0 {
          assert ins[i] == InsertAll(c1, ds[1..])[i - 1];
        }
      }
    }
  }

  /** Appending documents whose Ids are not yet present, one at a time, keeps the unique index. */
  lemma {:induction false} InsertAllKeepsUnique(c: Collection, ds: seq<Doc>)
    requires UniqueIds(c)
    ensures UniqueIds(c + InsertAll(c, ds))
    decreases |ds|
  {
    if ds == [] || IdOf(ds[0]) in IdsOf(c) {
      assert c + InsertAll(c, ds) == c;
    } else {
      var c1 := c + [ds[0]];
      assert UniqueIds(c1) by {
        forall i, j | 0 <= i < j < |c1| ensures IdOf(c1[i]) != IdOf(c1[j]) {
          assert c1[i] == c[i];
          if j == |c| {
            assert IdsOf(c)[i] == IdOf(c1[i]);
          } else {
            assert c1[j] == c[j];
          }
        }
      }
      InsertAllKeepsUnique(c1, ds[1..]);
      assert InsertAll(c, ds) == [ds[0]] + InsertAll(c1, ds[1..]);
      assert c1 + InsertAll(c1, ds[1..]) == c + InsertAll(c, ds);
    }
  }

  /** A batch with distinct Ids, none of them present, goes in whole. */
  lemma {:induction false} InsertAllFresh(c: Collection, ds: seq<Doc>)
    requires UniqueIds(ds)
    requires forall i :: 0 <= i < |ds| ==> IdOf(ds[i]) !in IdsOf(c)
    ensures InsertAll(c, ds) == ds
    decreases |ds|
  {
    if ds != [] {
      var c1 := c + [ds[0]];
      var tail := ds[1..];
      assert UniqueIds(tail) by {
        forall i, j | 0 <= i < j < |tail| ensures IdOf(tail[i]) != IdOf(tail[j]) {
          assert tail[i] == ds[i + 1] && tail[j] == ds[j + 1];
        }
      }
      IdsOfAppend(c, [ds[0]]);
      assert IdsOf(c1) == IdsOf(c) + [IdOf(ds[0])];
      forall i | 0 <= i < |tail| ensures IdOf(tail[i]) !in IdsOf(c1) {
        assert tail[i] == ds[i + 1];
        assert IdOf(ds[i + 1]) != IdOf(ds[0]);
      }
      InsertAllFresh(c1, tail);
    }
  }

  /** `insertMany(items)`: validation first, then the ordered insert. */
  function InsertManyOp(c: Collection, k: Kind, items: seq<Object>): (o: Outcome<seq<Doc>>)
    ensures c <= o.coll
    ensures o.result.Ok? ==> o.coll == c + o.result.value && |o.result.value| == |items|
    ensures o.result.Ok? ==> forall i :: 0 <= i < |items| ==> Prepare(k, items[i]) == Ok(o.result.value[i])
    ensures o.result.Ok? ==> PrepareAll(k, items) == Ok(o.result.value)
    ensures forall i :: |c| <= i < |o.coll| ==> IdOf(o.coll[i]) !in IdsOf(c)
    ensures forall i :: |c| <= i < |o.coll| ==> Conforms(k, o.coll[i])
  {
    match PrepareAll(k, items)
    case Err(e) => Outcome(c, Err(e))
    case Ok(ds) =>
      var ins := InsertAll(c, ds);
      InsertAllNew(c, ds);
      assert forall i :: 0 <= i < |ins| ==> (c + ins)[|c| + i] == ins[i];
      assert |ins| == |ds| ==> ins == ds;
      Outcome(c + ins, if |ins| < |ds| then Err(DuplicateKey) else Ok(ins))
  }

  /** A batch that validates, with distinct Ids none of which is stored, is inserted whole. */
  lemma InsertManyOpAccepts(c: Collection, k: Kind, items: seq<Object>)
    requires PrepareAll(k, items).Ok? && UniqueIds(PrepareAll(k, items).value)
    requires forall i :: 0 <= i < |items| ==> IdOf(PrepareAll(k, items).value[i]) !in IdsOf(c)
    ensures InsertManyOp(c, k, items) == Outcome(c + PrepareAll(k, items).value, Ok(PrepareAll(k, items).value))
  {
    InsertAllFresh(c, PrepareAll(k, items).value);
  }

  /** `findOneAndUpdate(f, {$set: payload}, {new: true})`: the first match gets the cast fields. */
  function UpdateOneOp(c: Collection, k: Kind, f: Filter, payload: Value): (o: Outcome<Option<Doc>>)
    ensures |o.coll| == |c|
    ensures o.result.Err? || o.result == Ok(None) ==> o.coll == c
    ensures o.result == Ok(None) ==> CastFilter(k, f).Ok?
    ensures o.result == Ok(None) && CastFilter(k, f).Ok? ==> forall j :: 0 <= j < |c| ==> !Matches(c[j], CastFilter(k, f).value)
    ensures o.result.Ok? && o.result.value.Some? ==>
      CastFilter(k, f).Ok? && CastFields(k, Spread(payload)).Ok? && FirstMatch(c, CastFilter(k, f).value).Some?
    ensures (o.result.Ok? && o.result.value.Some? && CastFilter(k, f).Ok? && CastFields(k, Spread(payload)).Ok?
      && FirstMatch(c, CastFilter(k, f).value).Some?) ==>
      var i := FirstMatch(c, CastFilter(k, f).value).value;
      o.coll == c[i := o.result.value.value] && o.result.value.value == c[i] + CastFields(k, Spread(payload)).value
  {
    match CastFilter(k, f)
    case Err(e) => Outcome(c, Err(e))
    case Ok(f') =>
      match CastFields(k, Spread(payload))
      case Err(e) => Outcome(c, Err(e))
      case Ok(fields) =>
        match FirstMatch(c, f')
        case None => Outcome(c, Ok(None))
        case Some(i) =>
          var d := c[i] + fields;
          if IdOf(d) != IdOf(c[i]) && IdOf(d) in IdsOf(c) then Outcome(c, Err(DuplicateKey))
          else Outcome(c[i := d], Ok(Some(d)))
  }

  /** An update never gives a document an `Id` another document holds. */
  lemma UpdateOneKeepsUnique(c: Collection, k: Kind, f: Filter, payload: Value)
    requires UniqueIds(c)
    ensures UniqueIds(UpdateOneOp(c, k, f, payload).coll)
  {
    var o := UpdateOneOp(c, k, f, payload);
    if o.result.Ok? && o.result.value.Some? {
      var i := FirstMatch(c, CastFilter(k, f).value).value;
      var d := o.result.value.value;
      assert IdOf(d) == IdOf(c[i]) || IdOf(d) !in IdsOf(c);
      forall a, b | 0 <= a < b < |o.coll| ensures IdOf(o.coll[a]) != IdOf(o.coll[b]) {
        if a == i && IdOf(d) != IdOf(c[i]) {
          assert IdsOf(c)[b] == IdOf(c[b]);
        } else if b == i && IdOf(d) != IdOf(c[i]) {
          assert IdsOf(c)[a] == IdOf(c[a]);
        }
      }
    }
  }

  /** `deleteMany(f)`: every match goes, and the count of matches is reported. */
  function DeleteManyOp(c: Collection, k: Kind, f: Filter): (o: Outcome<nat>)
    ensures o.result.Err? ==> o.coll == c
    ensures o.result.Ok? <==> CastFilter(k, f).Ok?
    ensures CastFilter(k, f).Ok? ==> o.coll == Reject(c, CastFilter(k, f).value)
    ensures CastFilter(k, f).Ok? ==> o.result.value == |Select(c, CastFilter(k, f).value)| == |c| - |o.coll|
  {
    match CastFilter(k, f)
    case Err(e) => Outcome(c, Err(e))
    case Ok(f') =>
      SelectRejectSplit(c, f');
      Outcome(Reject(c, f'), Ok(|Select(c, f')|))
  }

  // ----- the database -----

  /** The `movies` and `actors` collections, and whether the database can be reached at all. */
  class Database {
    var movies: Collection
    var actors: Collection
    var reachable: bool

    predicate Valid()
      reads this
    {
      UniqueIds(movies) && UniqueIds(actors)
    }

    function Coll(k: Kind): Collection
      reads this
    {
      match k
      case Movie => movies
      case Actor => actors
    }

    constructor (movies: Collection, actors: Collection, reachable: bool)
      ensures this.movies == movies && this.actors == actors && this.reachable == reachable
    {
      this.movies := movies;
      this.actors := actors;
      this.reachable := reachable;
    }

    method SetColl(k: Kind, c: Collection)
      modifies this
      ensures Coll(k) == c && Coll(Other(k)) == old(Coll(Other(k))) && reachable == old(reachable)
    {
      match k
      case Movie => movies := c;
      case Actor => actors := c;
    }

    /** `Model.find(f)` */
    function Find(k: Kind, f: Filter): (r: Result<seq<Doc>, Failure>)
      reads this
      ensures !reachable ==> r == Err(StoreFailure(Unavailable))
      ensures reachable ==> (r.Ok? <==> CastFilter(k, f).Ok?)
      ensures r.Ok? ==> r.value == Select(Coll(k), CastFilter(k, f).value)
    {
      if !reachable then Err(StoreFailure(Unavailable))
      else match CastFilter(k, f)
        case Err(e) => Err(StoreFailure(e))
        case Ok(f') => Ok(Select(Coll(k), f'))
    }

    /** `Model.countDocuments(f)` */
    function CountDocuments(k: Kind, f: Filter): (r: Result<nat, Failure>)
      reads this
      ensures r.Ok? <==> Find(k, f).Ok?
      ensures r.Ok? ==> r.value == |Find(k, f).value|
    {
      match Find(k, f)
      case Err(e) => Err(e)
      case Ok(ds) => Ok(|ds|)
    }

    /** `Model.insertMany(items)` */
    method InsertMany(k: Kind, items: seq<Object>) returns (r: Result<seq<Doc>, Failure>)
      requires Valid()
      modifies this
      ensures Valid()
      ensures reachable == old(reachable) && Coll(Other(k)) == old(Coll(Other(k)))
      ensures Grows(old(Coll(k)), Coll(k))
      ensures !reachable ==> r == Err(StoreFailure(Unavailable)) && Coll(k) == old(Coll(k))
      ensures reachable ==> var o := InsertManyOp(old(Coll(k)), k, items);
        Coll(k) == o.coll && r == (match o.result case Ok(ds) => Ok(ds) case Err(e) => Err(StoreFailure(e)))
    {
      if !reachable {
        return Err(StoreFailure(Unavailable));
      }
      var c := Coll(k);
      var o := InsertManyOp(c, k, items);
      match PrepareAll(k, items) {
        case Ok(ds) => InsertAllKeepsUnique(c, ds);
        case Err(_) =>
      }
      SetColl(k, o.coll);
      r := match o.result case Ok(ds) => Ok(ds) case Err(e) => Err(StoreFailure(e));
    }

    /** `Model.findOneAndUpdate(f, {$set: payload}, {new: true})` */
    method FindOneAndUpdate(k: Kind, f: Filter, payload: Value) returns (r: Result<Option<Doc>, Failure>)
      requires Valid()
      modifies this
      ensures Valid()
      ensures reachable == old(reachable) && Coll(Other(k)) == old(Coll(Other(k)))
      ensures !reachable ==> r == Err(StoreFailure(Unavailable)) && Coll(k) == old(Coll(k))
      ensures reachable ==> var o := UpdateOneOp(old(Coll(k)), k, f, payload);
        Coll(k) == o.coll && r == (match o.result case Ok(d) => Ok(d) case Err(e) => Err(StoreFailure(e)))
    {
      if !reachable {
        return Err(StoreFailure(Unavailable));
      }
      var c := Coll(k);
      var o := UpdateOneOp(c, k, f, payload);
      UpdateOneKeepsUnique(c, k, f, payload);
      SetColl(k, o.coll);
      r := match o.result case Ok(d) => Ok(d) case Err(e) => Err(StoreFailure(e));
    }

    /** `Model.deleteMany(f)`, with its `deletedCount`. */
    method DeleteMany(k: Kind, f: Filter) returns (r: Result<nat, Failure>)
      requires Valid()
      modifies this
      ensures Valid()
      ensures reachable == old(reachable) && Coll(Other(k)) == old(Coll(Other(k)))
      ensures !reachable ==> r == Err(StoreFailure(Unavailable)) && Coll(k) == old(Coll(k))
      ensures reachable ==> var o := DeleteManyOp(old(Coll(k)), k, f);
        Coll(k) == o.coll && r == (match o.result case Ok(n) => Ok(n) case Err(e) => Err(StoreFailure(e)))
    {
      if !reachable {
        return Err(StoreFailure(Unavailable));
      }
      var c := Coll(k);
      var o := DeleteManyOp(c, k, f);
      match CastFilter(k, f) {
        case Ok(f') => RejectKeepsUnique(c, f');
        case Err(_) =>
      }
      SetColl(k, o.coll);
      r := match o.result case Ok(n) => Ok(n) case Err(e) => Err(StoreFailure(e));
    }
  }
}
