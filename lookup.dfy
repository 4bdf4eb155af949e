/**
 * The request path of `home` (app.py:43-62): pick the first row whose name
 * contains the query, ignoring case; copy its fields into the details shown
 * on the page and into the feature record; ask the three models.
 */
module Lookup {
  import opened Wrappers
  import opened Cleaners
  import opened Dataset

  /** ASCII lower case. */
  function Lower(c: char): char {
    if 'A' <= c <= 'Z' then (c as int - 'A' as int + 'a' as int) as char else c
  }

  function LowerText(s: string): string {
    seq(|s|, i requires 0 <= i < |s| => Lower(s[i]))
  }

  /** `pat` occurs in `text` starting at position `i`. */
  ghost predicate OccursAt(text: string, pat: string, i: int) {
    0 <= i && i + |pat| <= |text| && text[i..i + |pat|] == pat
  }

  /** Substring search, trying each start position from the left. */
  function Contains(text: string, pat: string): (b: bool)
    ensures b <==> exists i :: OccursAt(text, pat, i)
  {
    if |pat| > |text| then
      assert forall i :: !OccursAt(text, pat, i);
      false
    else if text[..|pat|] == pat then
      assert OccursAt(text, pat, 0);
      true
    else
      var b := Contains(text[1..], pat);
      forall i | 1 <= i
        ensures OccursAt(text, pat, i) <==> OccursAt(text[1..], pat, i - 1)
      {
        var tail := text[1..];
        if i + |pat| <= |text| {
          var here, there := text[i..i + |pat|], tail[i - 1..i - 1 + |pat|];
          assert forall k :: 0 <= k < |pat| ==> here[k] == there[k];
          assert here == there;
        }
      }
      assert b ==> OccursAt(text, pat, 1 + (var j :| OccursAt(text[1..], pat, j); j));
      b
  }

  /**
   * `data['name'].str.contains(query, case=False, na=False)` for one row: a
   * missing name never matches.
   */
  predicate Matches(r: Row, query: string) {
    r.name.Some? && Contains(LowerText(r.name.value), LowerText(query))
  }

  /** `data[mask]`: the positions of the matching rows, in table order. */
  function Matching(rows: seq<Row>, query: string): (m: seq<nat>)
    ensures forall k :: 0 <= k < |m| ==> m[k] < |rows| && Matches(rows[m[k]], query)
    ensures forall i :: 0 <= i < |rows| && Matches(rows[i], query) ==> i in m
    ensures forall k, l :: 0 <= k < l < |m| ==> m[k] < m[l]
  {
    if rows == [] then []
    else
      var last := |rows| - 1;
      var m := Matching(rows[..last], query);
      assert forall k :: 0 <= k < |m| ==> rows[..last][m[k]] == rows[m[k]];
      m + (if Matches(rows[last], query) then [last] else [])
  }

  /**
   * `.iloc[0]` of the filtered table: the first matching row, or `None`
   * where pandas raises `IndexError` because nothing matched.
   */
  function FirstMatch(rows: seq<Row>, query: string): (r: Option<nat>)
    ensures r.None? <==> forall i :: 0 <= i < |rows| ==> !Matches(rows[i], query)
    ensures r.Some? ==> r.value < |rows| && Matches(rows[r.value], query) && rows[r.value].name.Some?
    ensures r.Some? ==> forall j :: 0 <= j < r.value ==> !Matches(rows[j], query)
  {
    var m := Matching(rows, query);
    if m == [] then None else Some(m[0])
  }

  // ---------------------------------------------------------------------
  // What a request produces.

  /** The `features` frame handed to the models. */
  datatype Features = Features(ratings: real, noOfRatings: real, actualPrice: real)

  /** The `product_details` dictionary rendered on the page. */
  datatype Details = Details(
    name: string,
    image: Option<string>,
    ratings: real,
    noOfRatings: real,
    actualPrice: real)

  /**
   * The page for a POST: the matched product and the three estimates, or
   * `NotFound` where the source's unguarded `.iloc[0]` raises.
   */
  datatype Prediction = NotFound | Found(details: Details, rf: real, xgb: real, gb: real)

  function DetailsOf(r: Row): Details
    requires Cleaned(r) && r.name.Some?
  {
    Details(r.name.value, r.image, r.ratings.x, r.noOfRatings.x, r.actualPrice.x)
  }

  function FeaturesOf(r: Row): Features
    requires Cleaned(r)
  {
    Features(r.ratings.x, r.noOfRatings.x, r.actualPrice.x)
  }

  /**
   * `p` shows row `r`: the details are `r`'s own fields, and each estimate is
   * its model applied to a feature record holding exactly the ratings,
   * rating count and price shown in the details.
   */
  ghost predicate Shows(p: Prediction, r: Row, rf: Features -> real, xgb: Features -> real, gb: Features -> real)
    requires Cleaned(r)
  {
    && p.Found?
    && Some(p.details.name) == r.name
    && p.details.image == r.image
    && Num(p.details.ratings) == r.ratings
    && Num(p.details.noOfRatings) == r.noOfRatings
    && Num(p.details.actualPrice) == r.actualPrice
    && var f := Features(p.details.ratings, p.details.noOfRatings, p.details.actualPrice);
       p.rf == rf(f) && p.xgb == xgb(f) && p.gb == gb(f)
  }

  /**
   * The POST branch of `home` on the cleaned table; `rf`, `xgb` and `gb`
   * stand for the three loaded models' `predict`.
   */
  function Home(rows: seq<Row>, query: string, rf: Features -> real, xgb: Features -> real, gb: Features -> real): (p: Prediction)
    requires forall i :: 0 <= i < |rows| ==> Cleaned(rows[i])
    ensures p.NotFound? <==> forall i :: 0 <= i < |rows| ==> !Matches(rows[i], query)
    ensures p.Found? ==> FirstMatch(rows, query).Some? && Shows(p, rows[FirstMatch(rows, query).value], rf, xgb, gb)
  {
    match FirstMatch(rows, query)
    case None => NotFound
    case Some(i) =>
      var product := rows[i];
      var features := FeaturesOf(product);
      Found(DetailsOf(product), rf(features), xgb(features), gb(features))
  }

  // ---------------------------------------------------------------------
  // Properties of the lookup.

  /** Only the lower-cased query matters: queries that differ in case select the same row. */
  lemma {:induction false} MatchingIgnoresCase(rows: seq<Row>, q1: string, q2: string)
    requires LowerText(q1) == LowerText(q2)
    ensures Matching(rows, q1) == Matching(rows, q2)
  {
    if rows != [] {
      MatchingIgnoresCase(rows[..|rows| - 1], q1, q2);
    }
  }

  lemma FirstMatchIgnoresCase(rows: seq<Row>, q1: string, q2: string)
    requires LowerText(q1) == LowerText(q2)
    ensures FirstMatch(rows, q1) == FirstMatch(rows, q2)
  {
    MatchingIgnoresCase(rows, q1, q2);
  }

  /** The empty query is contained in every name, so it selects the first row that has one. */
  lemma EmptyQuery(rows: seq<Row>)
    ensures FirstMatch(rows, "").Some? <==> exists i :: 0 <= i < |rows| && rows[i].name.Some?
    ensures FirstMatch(rows, "").Some? ==> forall j :: 0 <= j < FirstMatch(rows, "").value ==> rows[j].name.None?
  {
    forall i | 0 <= i < |rows| && rows[i].name.Some?
      ensures Matches(rows[i], "")
    {
      assert OccursAt(LowerText(rows[i].name.value), LowerText(""), 0);
    }
  }

  // ---------------------------------------------------------------------
  // Worked examples: a table named "Red Shoe", "Blue Shoe", "Red Hat".

  predicate ShoeTable(rows: seq<Row>) {
    && |rows| == 3
    && rows[0].name == Some("Red Shoe")
    && rows[1].name == Some("Blue Shoe")
    && rows[2].name == Some("Red Hat")
  }

  lemma LowerExamples()
    ensures LowerText("Red Shoe") == "red shoe"
    ensures LowerText("RED SHOE") == "red shoe"
    ensures LowerText("red shoe") == "red shoe"
    ensures LowerText("red") == "red"
  {
  }

  /** `"red"` selects `"Red Shoe"`, the first match in table order, not `"Red Hat"`. */
  lemma FirstOfTwoMatches(rows: seq<Row>)
    requires ShoeTable(rows)
    ensures FirstMatch(rows, "red") == Some(0)
    ensures Matches(rows[2], "red")
  {
    LowerExamples();
    assert OccursAt("red shoe", "red", 0);
    assert LowerText("Red Hat") == "red hat";
    assert OccursAt("red hat", "red", 0);
  }

  /** `"RED SHOE"` and `"red shoe"` select the same row: `"Red Shoe"`. */
  lemma CaseInsensitiveExample(rows: seq<Row>)
    requires ShoeTable(rows)
    ensures FirstMatch(rows, "RED SHOE") == FirstMatch(rows, "red shoe") == Some(0)
  {
    LowerExamples();
    FirstMatchIgnoresCase(rows, "RED SHOE", "red shoe");
    assert OccursAt("red shoe", "red shoe", 0);
  }

  /** A query longer than every name matches nothing, so the request is not found. */
  lemma NotFoundExample(rows: seq<Row>, rf: Features -> real, xgb: Features -> real, gb: Features -> real)
    requires ShoeTable(rows)
    requires forall i :: 0 <= i < |rows| ==> Cleaned(rows[i])
    ensures Home(rows, "nonexistent-item-xyz", rf, xgb, gb) == NotFound
  {
    var q := "nonexistent-item-xyz";
    assert |LowerText(q)| == 20;
    forall i | 0 <= i < 3
      ensures !Matches(rows[i], q)
    {
      assert |LowerText(rows[i].name.value)| < 20;
    }
  }

  /** With models that always answer 10.0, 12.0 and 11.0, a found product shows exactly those. */
  lemma MockedModelsExample(rows: seq<Row>)
    requires ShoeTable(rows)
    requires forall i :: 0 <= i < |rows| ==> Cleaned(rows[i])
    ensures Home(rows, "red", _ => 10.0, _ => 12.0, _ => 11.0).Found?
    ensures Home(rows, "red", _ => 10.0, _ => 12.0, _ => 11.0).details.name == "Red Shoe"
    ensures var p := Home(rows, "red", _ => 10.0, _ => 12.0, _ => 11.0);
            p.rf == 10.0 && p.xgb == 12.0 && p.gb == 11.0
  {
    FirstOfTwoMatches(rows);
  }
}
