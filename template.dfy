/**
 * The template-market tables (backend/models/template.py): the template row
 * with its rating, download and favourite counters, the tag table with its
 * usage counts, and the rating, favourite and download rows. A template's
 * tags are positions in the tag table. The JSON codec is a parameter.
 */
module Templates {
  import opened Wrappers
  import opened Text
  import opened Values

  datatype Tag = Tag(name: string, usageCount: int)

  datatype Template = Template(
    id: int,
    uuid: string,
    name: string,
    description: Option<string>,
    category: string,
    fieldsConfig: string,
    authorId: int,
    isPublic: bool,
    isOfficial: bool,
    downloads: int,
    rating: real,
    ratingCount: int,
    ratingSum: int,
    favoriteCount: int,
    tags: seq<nat>)

  datatype Rating = Rating(templateId: int, userId: int, score: int, comment: Option<string>)

  datatype Favorite = Favorite(templateId: int, userId: int)

  datatype Download = Download(templateId: int, userId: Option<int>, ipAddress: Option<string>)

  const ScoreError := "评分必须在 1-5 之间"

  /** The `fields` getter: the decoded column, or [] when it is empty or does not decode. */
  function Fields(t: Template, decode: string -> Option<Value>): (v: Value)
    ensures t.fieldsConfig == "" || decode(t.fieldsConfig).None? ==> v == List([])
    ensures t.fieldsConfig != "" && decode(t.fieldsConfig).Some? ==> v == decode(t.fieldsConfig).value
  {
    if t.fieldsConfig == "" then List([]) else decode(t.fieldsConfig).GetOr(List([]))
  }

  /** The average of `sum` over `count` ratings. */
  function Average(sum: int, count: int): real
    requires count != 0
  {
    sum as real / count as real
  }

  /**
   * `add_rating`: a score outside 1..5 raises; otherwise it joins the sum and
   * the count, and the average follows (a count that reaches 0, which only a
   * corrupt row can give, divides by zero).
   */
  function AddRating(t: Template, score: int): (r: Result<Template>)
    ensures r.Err? <==> score < 1 || score > 5 || t.ratingCount + 1 == 0
    ensures (score < 1 || score > 5) ==> r == Err(ScoreError)
    ensures r.Ok? ==>
              r.value == t.(ratingSum := t.ratingSum + score, ratingCount := t.ratingCount + 1,
                            rating := Average(t.ratingSum + score, t.ratingCount + 1))
  {
    if score < 1 || score > 5 then Err(ScoreError)
    else if t.ratingCount + 1 == 0 then Err("division by zero")
    else
      Ok(t.(ratingSum := t.ratingSum + score, ratingCount := t.ratingCount + 1,
            rating := Average(t.ratingSum + score, t.ratingCount + 1)))
  }

  /** `update_rating`: only the new score is checked; the sum swaps the old score for the new one and the count stays. */
  function UpdateRating(t: Template, oldScore: int, newScore: int): (r: Result<Template>)
    ensures r.Err? <==> newScore < 1 || newScore > 5
    ensures r.Err? ==> r.error == ScoreError
    ensures r.Ok? && t.ratingCount > 0 ==>
              r.value == t.(ratingSum := t.ratingSum - oldScore + newScore,
                            rating := Average(t.ratingSum - oldScore + newScore, t.ratingCount))
    ensures r.Ok? && t.ratingCount <= 0 ==> r.value == t.(ratingSum := t.ratingSum - oldScore + newScore, rating := 0.0)
  {
    if newScore < 1 || newScore > 5 then Err(ScoreError)
    else
      var sum := t.ratingSum - oldScore + newScore;
      Ok(t.(ratingSum := sum, rating := if t.ratingCount > 0 then Average(sum, t.ratingCount) else 0.0))
  }

  /** The rating columns agree: the sum lies between one and five points per rating, and the average is sum over count. */
  predicate RatingConsistent(t: Template) {
    0 <= t.ratingCount && t.ratingCount <= t.ratingSum <= 5 * t.ratingCount
    && (t.ratingCount > 0 ==> t.rating == Average(t.ratingSum, t.ratingCount))
  }

  /** Adding an accepted score keeps the rating columns consistent, and the average stays within 1..5. */
  lemma AddRatingConsistent(t: Template, score: int)
    requires RatingConsistent(t) && 1 <= score <= 5
    ensures AddRating(t, score).Ok? && RatingConsistent(AddRating(t, score).value)
    ensures 1.0 <= AddRating(t, score).value.rating <= 5.0
  {
    var r := AddRating(t, score).value;
    AverageWithin(r.ratingSum, r.ratingCount);
  }

  /** Replacing a score that was in the sum keeps the rating columns consistent. */
  lemma UpdateRatingConsistent(t: Template, oldScore: int, newScore: int)
    requires RatingConsistent(t) && t.ratingCount > 0 && 1 <= oldScore <= 5 && 1 <= newScore <= 5
    requires t.ratingCount <= t.ratingSum - oldScore + 1 && t.ratingSum - oldScore + 5 <= 5 * t.ratingCount
    ensures UpdateRating(t, oldScore, newScore).Ok? && RatingConsistent(UpdateRating(t, oldScore, newScore).value)
  {
  }

  lemma AverageWithin(sum: int, count: int)
    requires count > 0 && count <= sum <= 5 * count
    ensures 1.0 <= Average(sum, count) <= 5.0
  {
    assert count as real <= sum as real <= 5.0 * count as real;
  }

  /** `increment_downloads`: exactly one more download. */
  function IncrementDownloads(t: Template): (r: Template)
    ensures r.downloads == t.downloads + 1 && r == t.(downloads := r.downloads)
  {
    t.(downloads := t.downloads + 1)
  }

  /** `max(0, n - 1)`. */
  function DecrementFloored(n: int): (r: int)
    ensures n > 0 ==> r == n - 1
    ensures n <= 0 ==> r == 0
  {
    if n - 1 > 0 then n - 1 else 0
  }

  /** The tags after the first loop of `set_tags`: each held tag's usage count goes down by one, never below 0. */
  function Released(tags: seq<Tag>, held: seq<nat>): (r: seq<Tag>)
    requires forall j :: 0 <= j < |held| ==> held[j] < |tags|
    ensures |r| == |tags| && forall k :: 0 <= k < |tags| ==> r[k].name == tags[k].name
  {
    if held == [] then tags
    else
      var before := Released(tags, held[..|held| - 1]);
      var x := held[|held| - 1];
      before[x := before[x].(usageCount := DecrementFloored(before[x].usageCount))]
  }

  /** With each tag held once, a held tag's count goes down by one (floored at 0) and every other count stays. */
  lemma {:induction false} ReleasedOnce(tags: seq<Tag>, held: seq<nat>)
    requires forall j :: 0 <= j < |held| ==> held[j] < |tags|
    requires forall a, b :: 0 <= a < b < |held| ==> held[a] != held[b]
    ensures forall k :: 0 <= k < |tags| ==>
              Released(tags, held)[k].usageCount == if k in held then DecrementFloored(tags[k].usageCount) else tags[k].usageCount
  {
    if held != [] {
      var init := held[..|held| - 1];
      ReleasedOnce(tags, init);
      assert forall k :: k in held <==> k in init || k == held[|held| - 1];
    }
  }

  /** The position of the first tag with this name (`filter_by(name=…).first()`). */
  function FindTag(tags: seq<Tag>, name: string): (r: Option<nat>)
    ensures r.Some? ==> r.value < |tags| && tags[r.value].name == name && forall j :: 0 <= j < r.value ==> tags[j].name != name
    ensures r.None? ==> forall j :: 0 <= j < |tags| ==> tags[j].name != name
  {
    if tags == [] then None
    else if tags[0].name == name then Some(0)
    else match FindTag(tags[1..], name)
      case None => None
      case Some(i) => Some(i + 1)
  }

  /** `Tag.get_or_create`: the existing tag with that name, or a new one with usage 0 at the end of the table. */
  function GetOrCreate(tags: seq<Tag>, name: string): (r: (seq<Tag>, nat))
    ensures r.1 < |r.0| && r.0[r.1].name == name
    ensures FindTag(tags, name).Some? ==> r == (tags, FindTag(tags, name).value)
    ensures FindTag(tags, name).None? ==> r == (tags + [Tag(name, 0)], |tags|)
  {
    match FindTag(tags, name)
    case Some(i) => (tags, i)
    case None => (tags + [Tag(name, 0)], |tags|)
  }

  /** The second loop of `set_tags` over the given names: each trimmed name's tag is found or created, counted, and attached. */
  function Attached(tags: seq<Tag>, names: seq<string>, trim: string -> string): (r: (seq<Tag>, seq<nat>))
    ensures |r.0| >= |tags| && forall k :: 0 <= k < |tags| ==> r.0[k].name == tags[k].name
    ensures |r.1| == |names| && forall j :: 0 <= j < |names| ==> r.1[j] < |r.0| && r.0[r.1[j]].name == trim(names[j])
  {
    if names == [] then (tags, [])
    else
      var (before, held) := Attached(tags, names[..|names| - 1], trim);
      var (grown, i) := GetOrCreate(before, trim(names[|names| - 1]));
      (grown[i := grown[i].(usageCount := grown[i].usageCount + 1)], held + [i])
  }

  /** How many of the names trim to `n`. */
  function Occurrences(names: seq<string>, trim: string -> string, n: string): (c: nat)
    ensures c <= |names|
  {
    if names == [] then 0
    else Occurrences(names[..|names| - 1], trim, n) + (if trim(names[|names| - 1]) == n then 1 else 0)
  }

  /** No two tags share a name (the column is unique). */
  predicate UniqueNames(tags: seq<Tag>) {
    forall a, b :: 0 <= a < b < |tags| ==> tags[a].name != tags[b].name
  }

  /** Attaching keeps tag names unique, and each tag gains one use per name that trims to it. */
  lemma {:induction false} AttachedCounts(tags: seq<Tag>, names: seq<string>, trim: string -> string)
    requires UniqueNames(tags)
    ensures var r := Attached(tags, names, trim).0;
            UniqueNames(r)
            && forall k :: 0 <= k < |r| ==>
                 r[k].usageCount == (if k < |tags| then tags[k].usageCount else 0) + Occurrences(names, trim, r[k].name)
  {
    if names != [] {
      var init := names[..|names| - 1];
      AttachedCounts(tags, init, trim);
      var (before, held) := Attached(tags, init, trim);
      var n := trim(names[|names| - 1]);
      var (grown, i) := GetOrCreate(before, n);
      if FindTag(before, n).None? {
        assert Occurrences(init, trim, n) == 0 by {
          OccurrencesNamed(tags, init, trim, n);
        }
      }
    }
  }

  /** A name no tag carries after attaching was never among the trimmed names. */
  lemma {:induction false} OccurrencesNamed(tags: seq<Tag>, names: seq<string>, trim: string -> string, n: string)
    requires forall k :: 0 <= k < |Attached(tags, names, trim).0| ==> Attached(tags, names, trim).0[k].name != n
    ensures Occurrences(names, trim, n) == 0
  {
    if names != [] {
      var init := names[..|names| - 1];
      var (before, held) := Attached(tags, init, trim);
      var (grown, i) := GetOrCreate(before, trim(names[|names| - 1]));
      var full := Attached(tags, names, trim).0;
      assert full == grown[i := grown[i].(usageCount := grown[i].usageCount + 1)];
      assert full[i].name == trim(names[|names| - 1]);
      assert forall k :: 0 <= k < |before| ==> before[k].name == full[k].name;
      OccurrencesNamed(tags, init, trim, n);
    }
  }

  /** Every template's tags point into the tag table. */
  predicate TagsInTable(templates: seq<Template>, tags: seq<Tag>) {
    forall k, j :: 0 <= k < |templates| && 0 <= j < |templates[k].tags| ==> templates[k].tags[j] < |tags|
  }

  /** The tables the template models define. */
  class TemplateDb {
    var templates: seq<Template>
    var tags: seq<Tag>
    var ratings: seq<Rating>
    var favorites: seq<Favorite>
    var downloads: seq<Download>

    constructor()
      ensures templates == [] && tags == [] && ratings == [] && favorites == [] && downloads == []
    {
      templates := [];
      tags := [];
      ratings := [];
      favorites := [];
      downloads := [];
    }

    /** Tag references point into the tag table and no rating count is negative (counts start at 0 and only grow). */
    predicate Valid()
      reads this
    {
      TagsInTable(templates, tags) && forall k :: 0 <= k < |templates| ==> templates[k].ratingCount >= 0
    }

    /** `Tag.get_or_create` on the tag table. */
    method GetOrCreateTag(name: string) returns (i: nat)
      requires Valid()
      modifies this
      ensures Valid()
      ensures (tags, i) == GetOrCreate(old(tags), name)
      ensures templates == old(templates) && ratings == old(ratings) && favorites == old(favorites) && downloads == old(downloads)
    {
      var found := FindTag(tags, name);
      if found.Some? {
        return found.value;
      }
      tags := tags + [Tag(name, 0)];
      i := |tags| - 1;
    }

    /**
     * `set_tags` on template i: every old tag gives back one use, the list is
     * cleared, then the first ten names, trimmed, are found or created, counted
     * and attached in order.
     */
    method SetTags(i: nat, names: seq<string>)
      requires Valid() && i < |templates|
      modifies this
      ensures Valid()
      ensures var first := names[..if |names| < 10 then |names| else 10];
              var (after, held) := Attached(Released(old(tags), old(templates[i].tags)), first, Strip);
              tags == after && templates == old(templates)[i := old(templates[i]).(tags := held)]
      ensures ratings == old(ratings) && favorites == old(favorites) && downloads == old(downloads)
    {
      var released := ReleaseAll(tags, templates[i].tags);
      var first := names[..if |names| < 10 then |names| else 10];
      var table, held := AttachAll(released, first, Strip);
      tags := table;
      templates := templates[i := templates[i].(tags := held)];
    }
  }

  /** The first loop of `set_tags`: one use given back per held tag. */
  method ReleaseAll(tags: seq<Tag>, held: seq<nat>) returns (released: seq<Tag>)
    requires forall j :: 0 <= j < |held| ==> held[j] < |tags|
    ensures released == Released(tags, held)
  {
    released := tags;
    var k := 0;
    while k < |held|
      invariant 0 <= k <= |held|
      invariant released == Released(tags, held[..k])
    {
      assert held[..k + 1][..k] == held[..k];
      var x := held[k];
      released := released[x := released[x].(usageCount := DecrementFloored(released[x].usageCount))];
      k := k + 1;
    }
    assert held[..k] == held;
  }

  /** The second loop of `set_tags`: each trimmed name's tag found or created, counted and attached. */
  method AttachAll(tags: seq<Tag>, names: seq<string>, trim: string -> string) returns (table: seq<Tag>, held: seq<nat>)
    ensures (table, held) == Attached(tags, names, trim)
  {
    table := tags;
    held := [];
    var k := 0;
    while k < |names|
      invariant 0 <= k <= |names|
      invariant (table, held) == Attached(tags, names[..k], trim)
    {
      assert names[..k + 1][..k] == names[..k];
      var (grown, t) := GetOrCreate(table, trim(names[k]));
      table := grown[t := grown[t].(usageCount := grown[t].usageCount + 1)];
      held := held + [t];
      k := k + 1;
    }
    assert names[..k] == names;
  }
}
