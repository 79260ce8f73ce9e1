/** `GET /api/analytics/character-reviews`: the eight newest reviews that
    have text, each with its character's name and image.

    The Supabase tables are inputs: the reviews and, per character id, the
    character row the join finds (None when there is none). Both reads ask
    the database for the same feed, the SQL query through the `rpc/sql`
    endpoint and, when that endpoint refuses, the REST query with the
    character embedded; whether each endpoint answers is an input too. */
module ReviewsRoute {
  import opened Wrappers
  import opened Seqs

  /** A row of `arimate_character_reviews`; a NULL review is None. */
  datatype Review = Review(
    id: int,
    character: string,
    user: string,
    storyStar: int,
    artStar: int,
    review: Option<string>,
    createdAt: string)

  /** The columns of `arimate_characters` the join reads; NULL is None. */
  datatype CharacterInfo = CharacterInfo(name: Option<string>, profileImg: Option<string>)

  /** A row of the SQL query: the review with the LEFT JOINed columns,
      NULL where the join finds nothing. */
  datatype SqlRow = SqlRow(review: Review, characterName: Option<string>, profileImg: Option<string>)

  /** A review as the fallback shapes it, with both joined columns filled. */
  datatype FeedReview = FeedReview(review: Review, characterName: string, profileImg: string)

  datatype Response =
    | SqlReviews(rows: seq<SqlRow>)
    | Reviews(reviews: seq<FeedReview>)
    | Failed(error: string)

  const ReviewsFailed := "Failed to fetch character reviews"
  const FeedSize := 8
  const UnknownName := "Unknown"

  /** `review IS NOT NULL AND review != ''`. */
  predicate HasText(r: Review)
  {
    r.review.Some? && r.review.value != ""
  }

  /** `ORDER BY created_at DESC`, on ISO timestamps compared as text. */
  predicate NewestFirst(a: Review, b: Review)
  {
    LexLe(b.createdAt, a.createdAt)
  }

  lemma NewestFirstIsPreorder()
    ensures TotalPreorder(NewestFirst)
  {
    forall a: Review, b: Review ensures NewestFirst(a, b) || NewestFirst(b, a) {
      LexLeTotal(a.createdAt, b.createdAt);
    }
    forall a: Review, b: Review, c: Review | NewestFirst(a, b) && NewestFirst(b, c)
      ensures NewestFirst(a, c)
    {
      LexLeTransitive(c.createdAt, b.createdAt, a.createdAt);
    }
  }

  /** The reviews both queries select: those with text, newest first, at
      most eight. */
  function Feed(table: seq<Review>): (r: seq<Review>)
    ensures |r| <= FeedSize
    ensures forall i :: 0 <= i < |r| ==> HasText(r[i]) && r[i] in table
    ensures forall i, j :: 0 <= i < j < |r| ==> LexLe(r[j].createdAt, r[i].createdAt)
    ensures multiset(r) <= multiset(table)
  {
    var withText := Filter(table, HasText);
    var r := TopBy(withText, NewestFirst, FeedSize);
    NewestFirstIsPreorder();
    assert forall i :: 0 <= i < |r| ==> HasText(r[i]) && r[i] in table by {
      forall i | 0 <= i < |r| ensures HasText(r[i]) && r[i] in table {
        assert r[i] in multiset(withText);
        FilterMembers(table, HasText, r[i]);
      }
    }
    r
  }

  /** Only newer reviews can push a review with text out of the feed: one
      left out has eight reviews before it, none older than it. */
  lemma FeedIsNewest(table: seq<Review>, x: Review)
    requires x in table && HasText(x) && x !in Feed(table)
    ensures |Feed(table)| == FeedSize
    ensures forall i :: 0 <= i < FeedSize ==> LexLe(x.createdAt, Feed(table)[i].createdAt)
  {
    var withText := Filter(table, HasText);
    var r := Feed(table);
    FilterMembers(table, HasText, x);
    NewestFirstIsPreorder();
    TopByOmitted(withText, NewestFirst, FeedSize, x);
    forall i | 0 <= i < FeedSize ensures LexLe(x.createdAt, r[i].createdAt) {
      if i < FeedSize - 1 {
        LexLeTransitive(x.createdAt, r[FeedSize - 1].createdAt, r[i].createdAt);
      }
    }
  }

  /** The SQL query's row: `LEFT JOIN arimate_characters`. */
  function Joined(r: Review, characters: string -> Option<CharacterInfo>): SqlRow
  {
    match characters(r.character)
    case None => SqlRow(r, None, None)
    case Some(c) => SqlRow(r, c.name, c.profileImg)
  }

  /** The fallback's `map`: every column copied, the name defaulting to
      'Unknown' and the image to ''. */
  function Formatted(r: Review, embedded: Option<CharacterInfo>): (f: FeedReview)
    ensures f.review == r
    ensures embedded.Some? && embedded.value.name.Some? && embedded.value.name.value != ""
            ==> f.characterName == embedded.value.name.value
    ensures embedded.None? || embedded.value.name.None? || embedded.value.name.value == ""
            ==> f.characterName == UnknownName
    ensures embedded.Some? && embedded.value.profileImg.Some? ==> f.profileImg == embedded.value.profileImg.value
    ensures embedded.None? || embedded.value.profileImg.None? ==> f.profileImg == ""
  {
    var name := if embedded.Some? then embedded.value.name.GetOr("") else "";
    var img := if embedded.Some? then embedded.value.profileImg.GetOr("") else "";
    FeedReview(r, if name == "" then UnknownName else name, img)
  }

  /** `GET`: the SQL rows as they come when the endpoint answers; else the
      REST rows shaped by the fallback; a missing credential or a refused
      fallback is the one 500 answer. */
  function Get(projectUrl: string, anonKey: string, sqlOk: bool, restOk: bool,
               table: seq<Review>, characters: string -> Option<CharacterInfo>): (r: Response)
    ensures projectUrl == "" || anonKey == "" || (!sqlOk && !restOk) ==> r == Failed(ReviewsFailed)
    ensures projectUrl != "" && anonKey != "" && sqlOk ==>
              r.SqlReviews? && |r.rows| == |Feed(table)|
              && forall i :: 0 <= i < |r.rows| ==> r.rows[i] == Joined(Feed(table)[i], characters)
    ensures projectUrl != "" && anonKey != "" && !sqlOk && restOk ==>
              r.Reviews? && |r.reviews| == |Feed(table)|
              && forall i :: 0 <= i < |r.reviews| ==>
                   r.reviews[i] == Formatted(Feed(table)[i], characters(Feed(table)[i].character))
  {
    if projectUrl == "" || anonKey == "" then Failed(ReviewsFailed)
    else
      var feed := Feed(table);
      if sqlOk then SqlReviews(Map(feed, (x: Review) => Joined(x, characters)))
      else if restOk then Reviews(Map(feed, (x: Review) => Formatted(x, characters(x.character))))
      else Failed(ReviewsFailed)
  }

  /** Both paths list the same reviews in the same order; the fallback only
      fills the NULLs the join leaves with its defaults. */
  lemma FallbackFillsJoin(table: seq<Review>, characters: string -> Option<CharacterInfo>)
    ensures var sql := Get("url", "key", true, true, table, characters);
      var rest := Get("url", "key", false, true, table, characters);
      && |sql.rows| == |rest.reviews|
      && forall i :: 0 <= i < |sql.rows| ==>
           && rest.reviews[i].review == sql.rows[i].review
           && (sql.rows[i].characterName.Some? && sql.rows[i].characterName.value != "" ==>
                 rest.reviews[i].characterName == sql.rows[i].characterName.value)
           && (sql.rows[i].characterName.None? ==> rest.reviews[i].characterName == UnknownName)
           && rest.reviews[i].profileImg == sql.rows[i].profileImg.GetOr("")
  {
    var feed := Feed(table);
    var sql := Get("url", "key", true, true, table, characters);
    var rest := Get("url", "key", false, true, table, characters);
    forall i | 0 <= i < |sql.rows|
      ensures && rest.reviews[i].review == sql.rows[i].review
              && (sql.rows[i].characterName.Some? && sql.rows[i].characterName.value != "" ==>
                    rest.reviews[i].characterName == sql.rows[i].characterName.value)
              && (sql.rows[i].characterName.None? ==> rest.reviews[i].characterName == UnknownName)
              && rest.reviews[i].profileImg == sql.rows[i].profileImg.GetOr("")
    {
      var x := feed[i];
      assert sql.rows[i] == Joined(x, characters);
      assert rest.reviews[i] == Formatted(x, characters(x.character));
    }
  }
}
