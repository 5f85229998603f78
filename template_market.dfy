/**
 * The template market (backend/services/template_market_service.py): creating,
 * updating and deleting templates, recording uses, ratings and favourites.
 * The service works on the tables of a `TemplateDb`; database ids and uuids
 * are parameters, and so is the JSON encoder behind the `fields` setter.
 */
module TemplateMarket {
  import opened Wrappers
  import opened Text
  import opened Values
  import opened Templates

  const TemplateNotFound := "模板不存在"
  const NoRightToEdit := "无权修改此模板"
  const NoRightToDelete := "无权删除此模板"

  /** `Template.find_by_uuid`: the position of the first row with that uuid. */
  function FindByUuid(templates: seq<Template>, uuid: string): (r: Option<nat>)
    ensures r.Some? ==> r.value < |templates| && templates[r.value].uuid == uuid
                        && forall j :: 0 <= j < r.value ==> templates[j].uuid != uuid
    ensures r.None? ==> forall j :: 0 <= j < |templates| ==> templates[j].uuid != uuid
  {
    if templates == [] then None
    else if templates[0].uuid == uuid then Some(0)
    else match FindByUuid(templates[1..], uuid)
      case None => None
      case Some(i) => Some(i + 1)
  }

  /** How many rows `keep` selects. */
  function Count<T>(rows: seq<T>, keep: T -> bool): (n: nat)
    ensures n <= |rows|
  {
    if rows == [] then 0 else (if keep(rows[0]) then 1 else 0) + Count(rows[1..], keep)
  }

  lemma {:induction false} CountAppend<T>(rows: seq<T>, x: T, keep: T -> bool)
    ensures Count(rows + [x], keep) == Count(rows, keep) + if keep(x) then 1 else 0
  {
    if rows != [] {
      assert (rows + [x])[1..] == rows[1..] + [x];
      CountAppend(rows[1..], x, keep);
    }
  }

  lemma {:induction false} CountUpdate<T>(rows: seq<T>, j: nat, x: T, keep: T -> bool)
    requires j < |rows|
    ensures Count(rows[j := x], keep) == Count(rows, keep) - (if keep(rows[j]) then 1 else 0) + (if keep(x) then 1 else 0)
  {
    if j > 0 {
      assert rows[j := x][1..] == rows[1..][j - 1 := x];
      CountUpdate(rows[1..], j - 1, x, keep);
    }
  }

  lemma {:induction false} CountRemove<T>(rows: seq<T>, j: nat, keep: T -> bool)
    requires j < |rows|
    ensures Count(rows[..j] + rows[j + 1..], keep) == Count(rows, keep) - if keep(rows[j]) then 1 else 0
  {
    if j > 0 {
      assert (rows[..j] + rows[j + 1..])[1..] == rows[1..][..j - 1] + rows[1..][j..];
      CountRemove(rows[1..], j - 1, keep);
    } else {
      assert rows[..j] + rows[j + 1..] == rows[1..];
    }
  }

  function RatesTemplate(tid: int): Rating -> bool {
    (r: Rating) => r.templateId == tid
  }

  function FavoursTemplate(tid: int): Favorite -> bool {
    (f: Favorite) => f.templateId == tid
  }

  function DownloadsTemplate(tid: int): Download -> bool {
    (d: Download) => d.templateId == tid
  }

  /** The sum of the scores of a template's rating rows. */
  function ScoreSum(ratings: seq<Rating>, tid: int): int {
    if ratings == [] then 0
    else (if ratings[0].templateId == tid then ratings[0].score else 0) + ScoreSum(ratings[1..], tid)
  }

  lemma {:induction false} ScoreSumAppend(ratings: seq<Rating>, x: Rating, tid: int)
    ensures ScoreSum(ratings + [x], tid) == ScoreSum(ratings, tid) + if x.templateId == tid then x.score else 0
  {
    if ratings != [] {
      assert (ratings + [x])[1..] == ratings[1..] + [x];
      ScoreSumAppend(ratings[1..], x, tid);
    }
  }

  lemma {:induction false} ScoreSumUpdate(ratings: seq<Rating>, j: nat, x: Rating, tid: int)
    requires j < |ratings|
    ensures ScoreSum(ratings[j := x], tid)
            == ScoreSum(ratings, tid) - (if ratings[j].templateId == tid then ratings[j].score else 0)
               + (if x.templateId == tid then x.score else 0)
  {
    if j > 0 {
      assert ratings[j := x][1..] == ratings[1..][j - 1 := x];
      ScoreSumUpdate(ratings[1..], j - 1, x, tid);
    }
  }

  /** Every score on record is between 1 and 5. */
  predicate ScoresInRange(ratings: seq<Rating>) {
    forall j :: 0 <= j < |ratings| ==> 1 <= ratings[j].score <= 5
  }

  /** Between one and five points per rating row. */
  lemma {:induction false} ScoreSumBounds(ratings: seq<Rating>, tid: int)
    requires ScoresInRange(ratings)
    ensures Count(ratings, RatesTemplate(tid)) <= ScoreSum(ratings, tid) <= 5 * Count(ratings, RatesTemplate(tid))
  {
    if ratings != [] {
      ScoreSumBounds(ratings[1..], tid);
    }
  }

  /** No two templates share an id (the primary key). */
  predicate UniqueIds(templates: seq<Template>) {
    forall a, b :: 0 <= a < b < |templates| ==> templates[a].id != templates[b].id
  }

  /** One rating per (template, user): the table's unique constraint. */
  predicate OneRatingEach(ratings: seq<Rating>) {
    forall a, b :: 0 <= a < b < |ratings| ==>
      ratings[a].templateId != ratings[b].templateId || ratings[a].userId != ratings[b].userId
  }

  /** One favourite per (template, user): the table's unique constraint. */
  predicate OneFavoriteEach(favorites: seq<Favorite>) {
    forall a, b :: 0 <= a < b < |favorites| ==> favorites[a] != favorites[b]
  }

  /** Each template's rating count and rating sum are those of its rating rows. */
  predicate RatingsTallied(templates: seq<Template>, ratings: seq<Rating>) {
    forall k :: 0 <= k < |templates| ==>
      templates[k].ratingCount == Count(ratings, RatesTemplate(templates[k].id))
      && templates[k].ratingSum == ScoreSum(ratings, templates[k].id)
  }

  /** Each template's favourite count is the number of its favourite rows. */
  predicate FavoritesTallied(templates: seq<Template>, favorites: seq<Favorite>) {
    forall k :: 0 <= k < |templates| ==> templates[k].favoriteCount == Count(favorites, FavoursTemplate(templates[k].id))
  }

  /** Each template's download count is the number of its download records. */
  predicate DownloadsTallied(templates: seq<Template>, downloads: seq<Download>) {
    forall k :: 0 <= k < |templates| ==> templates[k].downloads == Count(downloads, DownloadsTemplate(templates[k].id))
  }

  /** With tallied ratings in range, each template's rating columns are consistent. */
  lemma TalliedRatingsBounded(templates: seq<Template>, ratings: seq<Rating>, k: nat)
    requires RatingsTallied(templates, ratings) && ScoresInRange(ratings) && k < |templates|
    ensures templates[k].ratingCount <= templates[k].ratingSum <= 5 * templates[k].ratingCount
  {
    ScoreSumBounds(ratings, templates[k].id);
  }

  /** The position of this user's rating of this template (`filter_by(template_id, user_id).first()`). */
  function FindRating(ratings: seq<Rating>, tid: int, userId: int): (r: Option<nat>)
    ensures r.Some? ==> r.value < |ratings| && ratings[r.value].templateId == tid && ratings[r.value].userId == userId
    ensures r.None? ==> forall j :: 0 <= j < |ratings| ==> ratings[j].templateId != tid || ratings[j].userId != userId
  {
    if ratings == [] then None
    else if ratings[0].templateId == tid && ratings[0].userId == userId then Some(0)
    else match FindRating(ratings[1..], tid, userId)
      case None => None
      case Some(i) => Some(i + 1)
  }

  /** The position of this user's favourite of this template. */
  function FindFavorite(favorites: seq<Favorite>, tid: int, userId: int): (r: Option<nat>)
    ensures r.Some? ==> r.value < |favorites| && favorites[r.value] == Favorite(tid, userId)
    ensures r.None? ==> Favorite(tid, userId) !in favorites
  {
    if favorites == [] then None
    else if favorites[0] == Favorite(tid, userId) then Some(0)
    else match FindFavorite(favorites[1..], tid, userId)
      case None => None
      case Some(i) => Some(i + 1)
  }

  /**
   * The tables after an accepted rating of template i: a re-rating replaces
   * the score and comment of the user's row and swaps the score in the sum;
   * a first rating appends a row and adds the score.
   */
  function Rated(templates: seq<Template>, ratings: seq<Rating>, i: nat, userId: int, score: int, comment: Option<string>)
    : (r: (seq<Template>, seq<Rating>))
    requires i < |templates| && templates[i].ratingCount >= 0 && 1 <= score <= 5
    ensures |r.0| == |templates|
  {
    var t := templates[i];
    match FindRating(ratings, t.id, userId)
    case Some(j) =>
      (templates[i := UpdateRating(t, ratings[j].score, score).value],
       ratings[j := ratings[j].(score := score, comment := comment)])
    case None =>
      (templates[i := AddRating(t, score).value], ratings + [Rating(t.id, userId, score, comment)])
  }

  /**
   * Rating keeps the tallies: with unique template ids and one rating per
   * (template, user), every template's rating count is still the number of its
   * rating rows and its sum still the sum of their scores, and the constraints
   * themselves still hold.
   */
  lemma RatedKeepsTally(templates: seq<Template>, ratings: seq<Rating>, i: nat, userId: int, score: int, comment: Option<string>)
    requires i < |templates| && templates[i].ratingCount >= 0 && 1 <= score <= 5
    requires UniqueIds(templates) && OneRatingEach(ratings) && ScoresInRange(ratings) && RatingsTallied(templates, ratings)
    ensures var (ts, rs) := Rated(templates, ratings, i, userId, score, comment);
            RatingsTallied(ts, rs) && OneRatingEach(rs) && ScoresInRange(rs) && UniqueIds(ts)
  {
    var (ts, rs) := Rated(templates, ratings, i, userId, score, comment);
    var tid := templates[i].id;
    forall k | 0 <= k < |ts|
      ensures ts[k].ratingCount == Count(rs, RatesTemplate(ts[k].id)) && ts[k].ratingSum == ScoreSum(rs, ts[k].id)
    {
      RatedRow(templates, ratings, i, userId, score, comment, k);
    }
  }

  lemma RatedRow(templates: seq<Template>, ratings: seq<Rating>, i: nat, userId: int, score: int, comment: Option<string>, k: nat)
    requires i < |templates| && templates[i].ratingCount >= 0 && 1 <= score <= 5 && k < |templates|
    requires UniqueIds(templates) && RatingsTallied(templates, ratings)
    ensures var (ts, rs) := Rated(templates, ratings, i, userId, score, comment);
            ts[k].ratingCount == Count(rs, RatesTemplate(ts[k].id)) && ts[k].ratingSum == ScoreSum(rs, ts[k].id)
  {
    var t := templates[i];
    var tid := templates[k].id;
    assert k != i ==> tid != t.id;
    match FindRating(ratings, t.id, userId)
    case Some(j) =>
      var x := ratings[j].(score := score, comment := comment);
      CountUpdate(ratings, j, x, RatesTemplate(tid));
      ScoreSumUpdate(ratings, j, x, tid);
    case None =>
      var x := Rating(t.id, userId, score, comment);
      CountAppend(ratings, x, RatesTemplate(tid));
      ScoreSumAppend(ratings, x, tid);
  }

  /** The favourites table after a toggle: the user's favourite removed if present, else appended. */
  function Toggle(favorites: seq<Favorite>, tid: int, userId: int): (r: seq<Favorite>)
    ensures Favorite(tid, userId) !in favorites ==> r == favorites + [Favorite(tid, userId)]
    ensures Favorite(tid, userId) in favorites ==> multiset(r) == multiset(favorites) - multiset{Favorite(tid, userId)}
  {
    match FindFavorite(favorites, tid, userId)
    case Some(j) =>
      assert favorites == favorites[..j] + [favorites[j]] + favorites[j + 1..];
      favorites[..j] + favorites[j + 1..]
    case None => favorites + [Favorite(tid, userId)]
  }

  /**
   * The tables after a favourite toggle of template i: an existing favourite
   * is deleted and the count goes down (never below 0); otherwise one is added
   * and the count goes up. The flag says whether the user now favours it.
   */
  function Toggled(templates: seq<Template>, favorites: seq<Favorite>, i: nat, userId: int)
    : (r: (seq<Template>, seq<Favorite>, bool))
    requires i < |templates|
    ensures |r.0| == |templates|
    ensures r.2 <==> Favorite(templates[i].id, userId) !in favorites
  {
    var t := templates[i];
    if Favorite(t.id, userId) in favorites then
      (templates[i := t.(favoriteCount := DecrementFloored(t.favoriteCount))], Toggle(favorites, t.id, userId), false)
    else
      (templates[i := t.(favoriteCount := t.favoriteCount + 1)], Toggle(favorites, t.id, userId), true)
  }

  /** Toggling keeps the favourite counts equal to the favourite rows and keeps them unique. */
  lemma ToggledKeepsTally(templates: seq<Template>, favorites: seq<Favorite>, i: nat, userId: int)
    requires i < |templates|
    requires UniqueIds(templates) && OneFavoriteEach(favorites) && FavoritesTallied(templates, favorites)
    ensures var (ts, fs, _) := Toggled(templates, favorites, i, userId);
            FavoritesTallied(ts, fs) && OneFavoriteEach(fs)
  {
    var (ts, fs, _) := Toggled(templates, favorites, i, userId);
    forall k | 0 <= k < |ts|
      ensures ts[k].favoriteCount == Count(fs, FavoursTemplate(ts[k].id))
    {
      ToggledRow(templates, favorites, i, userId, k);
    }
    match FindFavorite(favorites, templates[i].id, userId)
    case Some(j) =>
      forall a, b | 0 <= a < b < |fs| ensures fs[a] != fs[b] {
        assert fs[a] == favorites[if a < j then a else a + 1];
        assert fs[b] == favorites[if b < j then b else b + 1];
      }
    case None =>
  }

  lemma ToggledRow(templates: seq<Template>, favorites: seq<Favorite>, i: nat, userId: int, k: nat)
    requires i < |templates| && k < |templates|
    requires UniqueIds(templates) && FavoritesTallied(templates, favorites)
    ensures var (ts, fs, _) := Toggled(templates, favorites, i, userId);
            ts[k].favoriteCount == Count(fs, FavoursTemplate(ts[k].id))
  {
    var t := templates[i];
    var tid := templates[k].id;
    assert k != i ==> tid != t.id;
    match FindFavorite(favorites, t.id, userId)
    case Some(j) =>
      CountRemove(favorites, j, FavoursTemplate(tid));
    case None =>
      CountAppend(favorites, Favorite(t.id, userId), FavoursTemplate(tid));
  }

  /** A toggle keeps every template's id and changes the favourite rows by `Toggle`. */
  lemma ToggledShape(templates: seq<Template>, favorites: seq<Favorite>, i: nat, userId: int)
    requires i < |templates|
    ensures var (ts, fs, _) := Toggled(templates, favorites, i, userId);
            fs == Toggle(favorites, templates[i].id, userId) &&
            forall k :: 0 <= k < |ts| ==> ts[k].id == templates[k].id
  {
  }

  /** Toggling twice restores every favourite count. */
  lemma ToggleTwiceRestoresCounts(templates: seq<Template>, favorites: seq<Favorite>, i: nat, userId: int)
    requires i < |templates|
    requires UniqueIds(templates) && OneFavoriteEach(favorites) && FavoritesTallied(templates, favorites)
    ensures var (ts, fs, _) := Toggled(templates, favorites, i, userId);
            var (ts2, fs2, _) := Toggled(ts, fs, i, userId);
            forall k :: 0 <= k < |templates| ==> ts2[k].favoriteCount == templates[k].favoriteCount
  {
    var (ts, fs, _) := Toggled(templates, favorites, i, userId);
    ToggledShape(templates, favorites, i, userId);
    ToggledKeepsTally(templates, favorites, i, userId);
    ToggledKeepsTally(ts, fs, i, userId);
    ToggledShape(ts, fs, i, userId);
    var (ts2, fs2, _) := Toggled(ts, fs, i, userId);
    forall k | 0 <= k < |templates| ensures ts2[k].favoriteCount == templates[k].favoriteCount {
      TwiceSameRows(favorites, templates[i].id, userId, templates[k].id);
    }
  }

  /** Toggling the same favourite twice leaves each template's number of favourite rows as it was. */
  lemma TwiceSameRows(favorites: seq<Favorite>, tid: int, userId: int, other: int)
    requires OneFavoriteEach(favorites)
    ensures Count(Toggle(Toggle(favorites, tid, userId), tid, userId), FavoursTemplate(other))
            == Count(favorites, FavoursTemplate(other))
  {
    var keep := FavoursTemplate(other);
    var f := Favorite(tid, userId);
    var once := Toggle(favorites, tid, userId);
    match FindFavorite(favorites, tid, userId)
    case Some(j) =>
      CountRemove(favorites, j, keep);
      assert f !in once by {
        forall a | 0 <= a < |once| ensures once[a] != f {
          assert once[a] == favorites[if a < j then a else a + 1];
        }
      }
      CountAppend(once, f, keep);
    case None =>
      CountAppend(favorites, f, keep);
      var j := FindFavorite(once, tid, userId).value;
      assert j == |favorites|;
      assert once[..j] + once[j + 1..] == favorites;
  }

  /** `use_template`'s table change: one download record and one more download on template i. */
  function Used(templates: seq<Template>, downloads: seq<Download>, i: nat, userId: Option<int>, ip: Option<string>)
    : (r: (seq<Template>, seq<Download>))
    requires i < |templates|
    ensures |r.0| == |templates|
  {
    (templates[i := IncrementDownloads(templates[i])], downloads + [Download(templates[i].id, userId, ip)])
  }

  /** Every use keeps each template's download count equal to its download records. */
  lemma UsedKeepsTally(templates: seq<Template>, downloads: seq<Download>, i: nat, userId: Option<int>, ip: Option<string>)
    requires i < |templates| && UniqueIds(templates) && DownloadsTallied(templates, downloads)
    ensures var (ts, ds) := Used(templates, downloads, i, userId, ip);
            DownloadsTallied(ts, ds)
  {
    var (ts, ds) := Used(templates, downloads, i, userId, ip);
    forall k | 0 <= k < |ts| ensures ts[k].downloads == Count(ds, DownloadsTemplate(ts[k].id)) {
      assert k != i ==> templates[k].id != templates[i].id;
      CountAppend(downloads, Download(templates[i].id, userId, ip), DownloadsTemplate(templates[k].id));
    }
  }

  /** The keyword arguments `update_template` may receive; `None` means the key is absent. */
  datatype TemplateChanges = TemplateChanges(
    name: Option<string>,
    description: Option<Option<string>>,
    category: Option<string>,
    fields: Option<Value>,
    isPublic: Option<bool>,
    tags: Option<seq<string>>)

  /** The columns `update_template` sets before the tags: exactly the keys present. */
  function Edited(t: Template, c: TemplateChanges, encode: Value -> string): (r: Template)
    ensures r.id == t.id && r.uuid == t.uuid && r.authorId == t.authorId && r.isOfficial == t.isOfficial && r.tags == t.tags
    ensures r.downloads == t.downloads && r.rating == t.rating && r.ratingCount == t.ratingCount
            && r.ratingSum == t.ratingSum && r.favoriteCount == t.favoriteCount
    ensures r.name == (if c.name.Some? then c.name.value else t.name)
    ensures r.description == (if c.description.Some? then c.description.value else t.description)
    ensures r.category == (if c.category.Some? then c.category.value else t.category)
    ensures r.fieldsConfig == (if c.fields.Some? then encode(c.fields.value) else t.fieldsConfig)
    ensures r.isPublic == (if c.isPublic.Some? then c.isPublic.value else t.isPublic)
  {
    var t1 := if c.name.Some? then t.(name := c.name.value) else t;
    var t2 := if c.description.Some? then t1.(description := c.description.value) else t1;
    var t3 := if c.category.Some? then t2.(category := c.category.value) else t2;
    var t4 := if c.fields.Some? then t3.(fieldsConfig := encode(c.fields.value)) else t3;
    if c.isPublic.Some? then t4.(isPublic := c.isPublic.value) else t4
  }

  /** Editing twice with the same changes is editing once; no changes leave the row as it was. */
  lemma EditedIdempotent(t: Template, c: TemplateChanges, encode: Value -> string)
    ensures Edited(Edited(t, c, encode), c, encode) == Edited(t, c, encode)
    ensures Edited(t, TemplateChanges(None, None, None, None, None, None), encode) == t
  {
  }

  /** The error `update_template` or `delete_template` returns before changing anything, if any. */
  function GuardError(templates: seq<Template>, uuid: string, userId: int, foreign: string): (r: Option<string>)
    requires foreign != TemplateNotFound
    ensures r == Some(TemplateNotFound) <==> FindByUuid(templates, uuid).None?
    ensures r == Some(foreign) <==> FindByUuid(templates, uuid).Some? && templates[FindByUuid(templates, uuid).value].authorId != userId
    ensures r.None? <==> FindByUuid(templates, uuid).Some? && templates[FindByUuid(templates, uuid).value].authorId == userId
  {
    match FindByUuid(templates, uuid)
    case None => Some(TemplateNotFound)
    case Some(i) => if templates[i].authorId != userId then Some(foreign) else None
  }

  /** The row `create_template` builds: `fields or []` encoded, zero counters, no tags yet. */
  function NewTemplate(id: int, uuid: string, authorId: int, name: string, description: Option<string>, category: string,
                       fields: Value, isPublic: bool, encode: Value -> string): (t: Template)
    ensures t.fieldsConfig == encode(if Truthy(fields) then fields else List([]))
    ensures t.downloads == 0 && t.ratingCount == 0 && t.ratingSum == 0 && t.favoriteCount == 0 && t.rating == 0.0
    ensures t.tags == [] && !t.isOfficial && t.authorId == authorId && t.uuid == uuid && t.id == id
    ensures RatingConsistent(t)
  {
    Template(id, uuid, name, description, category, encode(if Truthy(fields) then fields else List([])),
             authorId, isPublic, false, 0, 0.0, 0, 0, 0, [])
  }

  /** `create_template`: append the new row, then `set_tags` when tags were given. */
  method CreateTemplate(db: TemplateDb, id: int, uuid: string, authorId: int, name: string, description: Option<string>,
                        category: string, fields: Value, tags: Option<seq<string>>, isPublic: bool, encode: Value -> string)
    returns (t: Template)
    requires db.Valid()
    modifies db
    ensures db.Valid()
    ensures var row := NewTemplate(id, uuid, authorId, name, description, category, fields, isPublic, encode);
            if tags.Some? && tags.value != [] then
              var first := tags.value[..if |tags.value| < 10 then |tags.value| else 10];
              var (after, held) := Attached(old(db.tags), first, Strip);
              db.tags == after && db.templates == old(db.templates) + [row.(tags := held)]
            else
              db.tags == old(db.tags) && db.templates == old(db.templates) + [row]
    ensures t == db.templates[|db.templates| - 1]
    ensures db.ratings == old(db.ratings) && db.favorites == old(db.favorites) && db.downloads == old(db.downloads)
  {
    var row := NewTemplate(id, uuid, authorId, name, description, category, fields, isPublic, encode);
    db.templates := db.templates + [row];
    if tags.Some? && tags.value != [] {
      db.SetTags(|db.templates| - 1, tags.value);
    }
    t := db.templates[|db.templates| - 1];
  }

  /** `update_template`: the guards, then exactly the keys present, with `set_tags` for tags. */
  method UpdateTemplate(db: TemplateDb, uuid: string, userId: int, c: TemplateChanges, encode: Value -> string)
    returns (r: Result<Template>)
    requires db.Valid()
    modifies db
    ensures db.Valid()
    ensures var e := GuardError(old(db.templates), uuid, userId, NoRightToEdit);
            e.Some? ==> r == Err(e.value) && db.templates == old(db.templates) && db.tags == old(db.tags)
    ensures GuardError(old(db.templates), uuid, userId, NoRightToEdit).None? ==>
              var i := FindByUuid(old(db.templates), uuid).value;
              var row := Edited(old(db.templates[i]), c, encode);
              if c.tags.Some? then
                var first := c.tags.value[..if |c.tags.value| < 10 then |c.tags.value| else 10];
                var (after, held) := Attached(Released(old(db.tags), row.tags), first, Strip);
                db.tags == after && db.templates == old(db.templates)[i := row.(tags := held)] && r == Ok(row.(tags := held))
              else
                db.tags == old(db.tags) && db.templates == old(db.templates)[i := row] && r == Ok(row)
    ensures db.ratings == old(db.ratings) && db.favorites == old(db.favorites) && db.downloads == old(db.downloads)
  {
    var e := GuardError(db.templates, uuid, userId, NoRightToEdit);
    if e.Some? {
      return Err(e.value);
    }
    var i := FindByUuid(db.templates, uuid).value;
    db.templates := db.templates[i := Edited(db.templates[i], c, encode)];
    if c.tags.Some? {
      db.SetTags(i, c.tags.value);
    }
    r := Ok(db.templates[i]);
  }

  /** `delete_template`: the guards, then the row is removed. */
  method DeleteTemplate(db: TemplateDb, uuid: string, userId: int) returns (ok: bool, error: Option<string>)
    requires db.Valid()
    modifies db
    ensures db.Valid()
    ensures error == GuardError(old(db.templates), uuid, userId, NoRightToDelete) && (ok <==> error.None?)
    ensures error.Some? ==> db.templates == old(db.templates)
    ensures error.None? ==>
              var i := FindByUuid(old(db.templates), uuid).value;
              db.templates == old(db.templates)[..i] + old(db.templates)[i + 1..]
    ensures db.tags == old(db.tags) && db.ratings == old(db.ratings) && db.favorites == old(db.favorites) && db.downloads == old(db.downloads)
  {
    error := GuardError(db.templates, uuid, userId, NoRightToDelete);
    if error.Some? {
      return false, error;
    }
    var i := FindByUuid(db.templates, uuid).value;
    db.templates := db.templates[..i] + db.templates[i + 1..];
    ok := true;
  }

  /** `use_template`: None for an unknown uuid; otherwise one download record and one more download. */
  method UseTemplate(db: TemplateDb, uuid: string, userId: Option<int>, ip: Option<string>) returns (r: Option<Template>)
    requires db.Valid()
    modifies db
    ensures db.Valid()
    ensures r.None? <==> FindByUuid(old(db.templates), uuid).None?
    ensures r.None? ==> db.templates == old(db.templates) && db.downloads == old(db.downloads)
    ensures r.Some? ==>
              var i := FindByUuid(old(db.templates), uuid).value;
              (db.templates, db.downloads) == Used(old(db.templates), old(db.downloads), i, userId, ip)
              && r == Some(db.templates[i])
    ensures db.tags == old(db.tags) && db.ratings == old(db.ratings) && db.favorites == old(db.favorites)
  {
    var found := FindByUuid(db.templates, uuid);
    if found.None? {
      return None;
    }
    var i := found.value;
    db.downloads := db.downloads + [Download(db.templates[i].id, userId, ip)];
    db.templates := db.templates[i := IncrementDownloads(db.templates[i])];
    r := Some(db.templates[i]);
  }

  /** `rate_template`: the score is checked before the lookup; then a re-rating or a first rating. */
  method RateTemplate(db: TemplateDb, uuid: string, userId: int, score: int, comment: Option<string>)
    returns (r: Result<Rating>)
    requires db.Valid()
    modifies db
    ensures db.Valid()
    ensures score < 1 || score > 5 ==> r == Err(ScoreError) && db.templates == old(db.templates) && db.ratings == old(db.ratings)
    ensures 1 <= score <= 5 && FindByUuid(old(db.templates), uuid).None? ==>
              r == Err(TemplateNotFound) && db.templates == old(db.templates) && db.ratings == old(db.ratings)
    ensures 1 <= score <= 5 && FindByUuid(old(db.templates), uuid).Some? ==>
              var i := FindByUuid(old(db.templates), uuid).value;
              (db.templates, db.ratings) == Rated(old(db.templates), old(db.ratings), i, userId, score, comment)
              && r == Ok(Rating(old(db.templates[i]).id, userId, score, comment))
    ensures db.tags == old(db.tags) && db.favorites == old(db.favorites) && db.downloads == old(db.downloads)
  {
    if score < 1 || score > 5 {
      return Err(ScoreError);
    }
    var found := FindByUuid(db.templates, uuid);
    if found.None? {
      return Err(TemplateNotFound);
    }
    var i := found.value;
    var t := db.templates[i];
    var existing := FindRating(db.ratings, t.id, userId);
    if existing.Some? {
      var j := existing.value;
      var oldScore := db.ratings[j].score;
      db.ratings := db.ratings[j := db.ratings[j].(score := score, comment := comment)];
      db.templates := db.templates[i := UpdateRating(t, oldScore, score).value];
      r := Ok(db.ratings[j]);
    } else {
      db.ratings := db.ratings + [Rating(t.id, userId, score, comment)];
      db.templates := db.templates[i := AddRating(t, score).value];
      r := Ok(Rating(t.id, userId, score, comment));
    }
  }

  /** `toggle_favorite`: (false, false) for an unknown uuid; otherwise (true, whether the user now favours it). */
  method ToggleFavorite(db: TemplateDb, uuid: string, userId: int) returns (success: bool, favored: bool)
    requires db.Valid()
    modifies db
    ensures db.Valid()
    ensures !success <==> FindByUuid(old(db.templates), uuid).None?
    ensures !success ==> !favored && db.templates == old(db.templates) && db.favorites == old(db.favorites)
    ensures success ==>
              var i := FindByUuid(old(db.templates), uuid).value;
              (db.templates, db.favorites, favored) == Toggled(old(db.templates), old(db.favorites), i, userId)
    ensures db.tags == old(db.tags) && db.ratings == old(db.ratings) && db.downloads == old(db.downloads)
  {
    var found := FindByUuid(db.templates, uuid);
    if found.None? {
      return false, false;
    }
    var i := found.value;
    var t := db.templates[i];
    var existing := FindFavorite(db.favorites, t.id, userId);
    if existing.Some? {
      var j := existing.value;
      db.favorites := db.favorites[..j] + db.favorites[j + 1..];
      db.templates := db.templates[i := t.(favoriteCount := DecrementFloored(t.favoriteCount))];
      return true, false;
    }
    db.favorites := db.favorites + [Favorite(t.id, userId)];
    db.templates := db.templates[i := t.(favoriteCount := t.favoriteCount + 1)];
    return true, true;
  }
}
