/**
 * How the prompt alone steers the reply: `getDisplayFocus`, which tells the client to
 * show genres, actors or full records, and the count-phrase test of `askAI`. Both run
 * their regular expressions on the prompt; here each expression is given by an exact
 * statement of where it matches, on the ASCII-lower-cased prompt.
 */
module Focus {
  import opened Text

  // ----- where the expressions match -----

  /** `\b` before a word character at `i`. */
  predicate WordStart(p: string, i: int) {
    i == 0 || (0 < i <= |p| && !IsWordChar(p[i - 1]))
  }

  /** `\b` after a word character that ends at `j`. */
  predicate WordEnd(p: string, j: int) {
    j == |p| || (0 <= j < |p| && !IsWordChar(p[j]))
  }

  /** `\bw\b` matches at `i`, for a word `w` made of word characters. */
  predicate WordAt(p: string, w: string, i: int) {
    LiteralAt(p, w, i) && WordStart(p, i) && WordEnd(p, i + |w|)
  }

  predicate HasWord(p: string, w: string) {
    exists i :: 0 <= i <= |p| && WordAt(p, w, i)
  }

  /** The end of the run of white space that starts at `i`. */
  function SpaceRunEnd(p: string, i: int): (j: int)
    requires 0 <= i <= |p|
    ensures i <= j <= |p|
    ensures forall k :: i <= k < j ==> IsSpace(p[k])
    ensures j == |p| || !IsSpace(p[j])
    decreases |p| - i
  {
    if i < |p| && IsSpace(p[i]) then SpaceRunEnd(p, i + 1) else i
  }

  /**
   * `\s+verb\s+in\b` matches at `j` (the first white-space character before `verb`). A
   * run of `\s` followed by a letter must end where the white space ends, so a match
   * exists exactly when the maximal runs are followed by the literals.
   */
  predicate VerbInAt(p: string, j: int, verb: string) {
    0 <= j <= |p| &&
    var v := SpaceRunEnd(p, j);
    v > j && LiteralAt(p, verb, v) &&
    var k := SpaceRunEnd(p, v + |verb|);
    k > v + |verb| && LiteralAt(p, "in", k) && WordEnd(p, k + 2)
  }

  /** `/\bwho\s+(is|are)\s+in\b/` matches at `i`. */
  predicate WhoIsInAt(p: string, i: int) {
    0 <= i && WordStart(p, i) && LiteralAt(p, "who", i) &&
    (VerbInAt(p, i + 3, "is") || VerbInAt(p, i + 3, "are"))
  }

  predicate WhoIsIn(p: string) {
    exists i :: 0 <= i <= |p| && WhoIsInAt(p, i)
  }

  /** No character of `s` is a line terminator (what `.*` may cover). */
  predicate OnOneLine(s: string) {
    forall i :: 0 <= i < |s| ==> !IsLineTerminator(s[i])
  }

  /**
   * `/\blist\s+.*\bactor/` matches with `list` at `i` and `actor` at `k`: white space
   * right after `list`, and from the end of that white space (or from `k`, if it comes
   * first) to `k` nothing `.` refuses. There is no `\b` after `actor`: "actors" matches.
   */
  predicate ListActorAt(p: string, i: int, k: int) {
    0 <= i && WordStart(p, i) && LiteralAt(p, "list", i) &&
    var e := SpaceRunEnd(p, i + 4);
    e > i + 4 && i + 5 <= k && WordStart(p, k) && LiteralAt(p, "actor", k) &&
    (k <= e || OnOneLine(p[e..k]))
  }

  predicate ListActor(p: string) {
    exists i, k :: 0 <= i <= |p| && 0 <= k <= |p| && ListActorAt(p, i, k)
  }

  /** `/\b(genre|genres)\b/` */
  predicate GenreWord(p: string) {
    HasWord(p, "genre") || HasWord(p, "genres")
  }

  /** `/\b(actor|actors|cast)\b/` */
  predicate ActorWord(p: string) {
    HasWord(p, "actor") || HasWord(p, "actors") || HasWord(p, "cast")
  }

  // ----- getDisplayFocus -----

  predicate AsksGenres(p: string) {
    GenreWord(p) && !ActorWord(p)
  }

  predicate AsksActors(p: string) {
    ActorWord(p) || WhoIsIn(p) || ListActor(p)
  }

  /** `getDisplayFocus(prompt)`: which part of the records the client should show. */
  function DisplayFocus(prompt: string): (focus: string)
    ensures focus == "genres" || focus == "actors" || focus == "full"
    ensures focus == "genres" <==> AsksGenres(Lower(prompt))
    ensures focus == "actors" <==> !AsksGenres(Lower(prompt)) && AsksActors(Lower(prompt))
    ensures prompt == [] ==> focus == "full"
  {
    if prompt == [] then "full"
    else
      var p := Lower(prompt);
      if AsksGenres(p) then "genres"
      else if AsksActors(p) then "actors"
      else "full"
  }

  /** The focus does not depend on the case of the prompt's letters. */
  lemma DisplayFocusIgnoresCase(prompt: string)
    ensures DisplayFocus(Lower(prompt)) == DisplayFocus(prompt)
  {
    LowerIdempotent(prompt);
  }

  /** A prompt that names actors or the cast as a word never gets the genre view. */
  lemma {:induction false} ActorWordRulesOutGenres(prompt: string, i: int)
    requires WordAt(Lower(prompt), "cast", i) || WordAt(Lower(prompt), "actor", i) || WordAt(Lower(prompt), "actors", i)
    ensures DisplayFocus(prompt) == "actors"
  {
    var p := Lower(prompt);
    assert 0 <= i <= |p|;
    assert ActorWord(p);
  }

  /** A prompt that only names a genre as a word gets the genre view. */
  lemma {:induction false} GenreWordGivesGenres(prompt: string, i: int)
    requires WordAt(Lower(prompt), "genre", i) || WordAt(Lower(prompt), "genres", i)
    requires !ActorWord(Lower(prompt))
    ensures DisplayFocus(prompt) == "genres"
  {
    var p := Lower(prompt);
    assert 0 <= i <= |p|;
    assert GenreWord(p);
  }

  // ----- the count-phrase test of askAI -----

  /** `/count|how many|total count|number of|total number/i` */
  predicate CountPhrase(p: string) {
    HasInfix(p, "count") || HasInfix(p, "how many") || HasInfix(p, "total count")
    || HasInfix(p, "number of") || HasInfix(p, "total number")
  }

  /** `/show|display|list|get|find/i` */
  predicate ListingPhrase(p: string) {
    HasInfix(p, "show") || HasInfix(p, "display") || HasInfix(p, "list")
    || HasInfix(p, "get") || HasInfix(p, "find")
  }

  /** `isCountQuery`: the prompt asks for a number, not for the records. */
  function IsCountQuery(prompt: string): (b: bool)
    ensures b <==> CountPhrase(Lower(prompt)) && !ListingPhrase(Lower(prompt))
  {
    var p := Lower(prompt);
    CountPhrase(p) && !ListingPhrase(p)
  }

  /** The alternative `total count` adds nothing: every text containing it contains `count`. */
  lemma {:induction false} TotalCountImpliesCount(p: string)
    requires HasInfix(p, "total count")
    ensures HasInfix(p, "count")
  {
    var i :| 0 <= i <= |p| && LiteralAt(p, "total count", i);
    assert p[i + 6..i + 11] == p[i..i + 11][6..11];
    assert LiteralAt(p, "count", i + 6);
  }

  /** Neither test depends on the case of the prompt's letters. */
  lemma CountQueryIgnoresCase(prompt: string)
    ensures IsCountQuery(Lower(prompt)) == IsCountQuery(prompt)
  {
    LowerIdempotent(prompt);
  }
}
