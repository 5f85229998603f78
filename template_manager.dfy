/**
 * The template manager (components/template-manager.tsx): saved field
 * configurations that can be saved, edited, duplicated, deleted and searched.
 * The component's React state is one `Manager` value; each handler returns
 * the state it hands to the setters. The clock and `Math.random()` are the
 * `Clock` parameter.
 */
module TemplateManager {
  import opened Wrappers
  import opened Text
  import RelationPage

  type DataField = RelationPage.Field

  /** A saved template. */
  datatype Template = Template(id: string, name: string, description: string, fields: seq<DataField>,
                               createdAt: string, updatedAt: string, category: string)

  /** The save dialog's form. */
  datatype Draft = Draft(name: string, description: string, category: string)

  /** The form as the component resets it. */
  const EmptyDraft := Draft("", "", "other")

  /** The state the handlers read and write. */
  datatype Manager = Manager(templates: seq<Template>, draft: Draft, editing: Option<Template>,
                             saveDialogOpen: bool, searchQuery: string, selectedCategory: string)

  /**
   * `new Date().toISOString()`, `Date.now().toString()`, and the id
   * `Date.now().toString() + Math.random()` given to the j-th copied field.
   */
  datatype Clock = Clock(now: string, stamp: string, fieldId: nat -> string)

  /** The fields with fresh ids; everything else of each field is kept. */
  function Reid(fields: seq<DataField>, fieldId: nat -> string): (r: seq<DataField>)
    ensures |r| == |fields|
    ensures forall j :: 0 <= j < |fields| ==> r[j] == fields[j].(id := fieldId(j))
  {
    seq(|fields|, j requires 0 <= j < |fields| => fields[j].(id := fieldId(j)))
  }

  /** Two field lists with the same names, types and options in the same order. */
  predicate SameShape(a: seq<DataField>, b: seq<DataField>) {
    |a| == |b| && forall j :: 0 <= j < |a| ==> a[j].name == b[j].name && a[j].kind == b[j].kind && a[j].options == b[j].options
  }

  function Ids(ts: seq<Template>): (r: seq<string>)
    ensures |r| == |ts| && forall i :: 0 <= i < |ts| ==> r[i] == ts[i].id
  {
    seq(|ts|, i requires 0 <= i < |ts| => ts[i].id)
  }

  predicate UniqueIds(ts: seq<Template>) {
    forall i, j :: 0 <= i < j < |ts| ==> ts[i].id != ts[j].id
  }

  // ---------------------------------------------------------------- saving

  /** The template `handleSaveTemplate` appends when nothing is being edited. */
  function Created(d: Draft, currentFields: seq<DataField>, c: Clock): Template {
    Template(c.stamp, d.name, d.description, Reid(currentFields, c.fieldId), c.now, c.now, d.category)
  }

  /** The edited template: the form's name, description and category, the current fields, a new `updatedAt`. */
  function Edited(t: Template, d: Draft, currentFields: seq<DataField>, c: Clock): Template {
    t.(name := d.name, description := d.description, category := d.category, fields := currentFields, updatedAt := c.now)
  }

  function SavedTemplates(ts: seq<Template>, d: Draft, editing: Option<Template>, currentFields: seq<DataField>, c: Clock): seq<Template> {
    match editing
    case Some(e) => seq(|ts|, i requires 0 <= i < |ts| => if ts[i].id == e.id then Edited(ts[i], d, currentFields, c) else ts[i])
    case None => ts + [Created(d, currentFields, c)]
  }

  /**
   * `handleSaveTemplate`: a name that is blank after trimming changes
   * nothing; otherwise the templates are updated, the form is reset and the
   * dialog closes. (The dialog's button is also disabled while there are no
   * current fields; the handler does not check that.)
   */
  function SaveTemplate(m: Manager, currentFields: seq<DataField>, c: Clock): Manager {
    if Strip(m.draft.name) == [] then m
    else m.(templates := SavedTemplates(m.templates, m.draft, m.editing, currentFields, c),
            draft := EmptyDraft, editing := None, saveDialogOpen := false)
  }

  /** A blank name leaves the whole state as it was. */
  lemma SaveBlankName(m: Manager, currentFields: seq<DataField>, c: Clock)
    requires forall i :: 0 <= i < |m.draft.name| ==> IsSpace(m.draft.name[i])
    ensures SaveTemplate(m, currentFields, c) == m
  {
    StripEmpty(m.draft.name);
  }

  /**
   * Saving with a name clears the form and the edit target and closes the
   * dialog; search and category selection stay.
   */
  lemma SaveResetsForm(m: Manager, currentFields: seq<DataField>, c: Clock)
    requires exists i :: 0 <= i < |m.draft.name| && !IsSpace(m.draft.name[i])
    ensures var r := SaveTemplate(m, currentFields, c);
            r.draft == EmptyDraft && r.editing == None && !r.saveDialogOpen
            && r.searchQuery == m.searchQuery && r.selectedCategory == m.selectedCategory
  {
    StripEmpty(m.draft.name);
  }

  /**
   * Saving an edit keeps the length and the ids; the templates whose id is
   * the edited one take the form's values, the current fields and `now`,
   * keeping `createdAt`; the others are unchanged.
   */
  lemma SaveEdit(m: Manager, currentFields: seq<DataField>, c: Clock)
    requires m.editing.Some? && Strip(m.draft.name) != []
    ensures var ts := SaveTemplate(m, currentFields, c).templates;
            |ts| == |m.templates| && Ids(ts) == Ids(m.templates)
            && forall i :: 0 <= i < |ts| ==>
                 if m.templates[i].id == m.editing.value.id then
                   ts[i].name == m.draft.name && ts[i].description == m.draft.description
                   && ts[i].category == m.draft.category && ts[i].fields == currentFields
                   && ts[i].updatedAt == c.now && ts[i].createdAt == m.templates[i].createdAt
                 else ts[i] == m.templates[i]
  {
  }

  /** Saving an edit keeps the ids unique. */
  lemma SaveEditUnique(m: Manager, currentFields: seq<DataField>, c: Clock)
    requires m.editing.Some? && Strip(m.draft.name) != [] && UniqueIds(m.templates)
    ensures UniqueIds(SaveTemplate(m, currentFields, c).templates)
  {
    SaveEdit(m, currentFields, c);
    var ts := SaveTemplate(m, currentFields, c).templates;
    forall i, j | 0 <= i < j < |ts|
      ensures ts[i].id != ts[j].id
    {
      assert Ids(ts)[i] == Ids(m.templates)[i] && Ids(ts)[j] == Ids(m.templates)[j];
    }
  }

  /**
   * Saving a new template appends exactly one, stamped with the current time
   * for both `createdAt` and `updatedAt`, holding the current fields' names,
   * types and options under fresh ids.
   */
  lemma SaveCreate(m: Manager, currentFields: seq<DataField>, c: Clock)
    requires m.editing.None? && Strip(m.draft.name) != []
    ensures var ts := SaveTemplate(m, currentFields, c).templates;
            |ts| == |m.templates| + 1 && ts[..|m.templates|] == m.templates
            && ts[|m.templates|].id == c.stamp
            && ts[|m.templates|].name == m.draft.name && ts[|m.templates|].category == m.draft.category
            && ts[|m.templates|].createdAt == ts[|m.templates|].updatedAt == c.now
            && SameShape(ts[|m.templates|].fields, currentFields)
  {
    var ts := SaveTemplate(m, currentFields, c).templates;
    assert ts == m.templates + [Created(m.draft, currentFields, c)];
    assert ts[..|m.templates|] == m.templates;
  }

  /** Deleting a newly created template by its fresh id gives back the list before the save. */
  lemma SaveCreateThenDelete(m: Manager, currentFields: seq<DataField>, c: Clock)
    requires m.editing.None? && Strip(m.draft.name) != []
    requires c.stamp !in Ids(m.templates)
    ensures DeleteTemplate(SaveTemplate(m, currentFields, c).templates, c.stamp) == m.templates
  {
    DeleteAppended(m.templates, Created(m.draft, currentFields, c));
  }

  /** `handleEditTemplate`: the template becomes the edit target and fills the form. */
  function EditTemplate(m: Manager, t: Template): (r: Manager)
    ensures r.templates == m.templates && r.editing == Some(t) && r.saveDialogOpen
  {
    m.(editing := Some(t), draft := Draft(t.name, t.description, t.category), saveDialogOpen := true)
  }

  /**
   * Opening a template for editing and saving it with the same fields changes
   * only its `updatedAt`.
   */
  lemma EditThenSaveTouches(m: Manager, t: Template, c: Clock)
    requires Strip(t.name) != [] && t in m.templates && UniqueIds(m.templates)
    ensures var ts := SaveTemplate(EditTemplate(m, t), t.fields, c).templates;
            |ts| == |m.templates| && forall i :: 0 <= i < |ts| ==>
              ts[i] == if m.templates[i] == t then t.(updatedAt := c.now) else m.templates[i]
  {
    var k :| 0 <= k < |m.templates| && m.templates[k] == t;
    forall i | 0 <= i < |m.templates| && m.templates[i].id == t.id
      ensures m.templates[i] == t
    {
      assert i == k;
    }
  }

  // ---------------------------------------------------------------- deleting and duplicating

  /** The filter that drops one id. */
  function Other(id: string): Template -> bool {
    (t: Template) => t.id != id
  }

  /** `handleDeleteTemplate`. */
  function DeleteTemplate(ts: seq<Template>, id: string): seq<Template> {
    RelationPage.Filter(ts, Other(id))
  }

  /** Exactly the templates with another id stay, in their order. */
  lemma DeleteContents(a: seq<Template>, b: seq<Template>, id: string)
    ensures forall t :: t in DeleteTemplate(a, id) <==> t in a && t.id != id
    ensures DeleteTemplate(a + b, id) == DeleteTemplate(a, id) + DeleteTemplate(b, id)
  {
    RelationPage.FilterConcat(a, b, Other(id));
  }

  /** Deleting an id nobody has changes nothing, so deleting twice is deleting once. */
  lemma DeleteIdempotent(ts: seq<Template>, id: string)
    ensures id !in Ids(ts) ==> DeleteTemplate(ts, id) == ts
    ensures DeleteTemplate(DeleteTemplate(ts, id), id) == DeleteTemplate(ts, id)
  {
    if id !in Ids(ts) {
      forall i | 0 <= i < |ts| ensures Other(id)(ts[i]) {
        assert Ids(ts)[i] == ts[i].id;
      }
      RelationPage.FilterKeepsAll(ts, Other(id));
    }
    var d := DeleteTemplate(ts, id);
    forall i | 0 <= i < |d| ensures Other(id)(d[i]) {
      assert d[i] in d;
    }
    RelationPage.FilterKeepsAll(d, Other(id));
  }

  /** Appending a template with a fresh id and deleting it again is the identity. */
  lemma DeleteAppended(ts: seq<Template>, t: Template)
    requires t.id !in Ids(ts)
    ensures DeleteTemplate(ts + [t], t.id) == ts
  {
    DeleteIdempotent(ts, t.id);
    RelationPage.FilterConcat(ts, [t], Other(t.id));
    assert RelationPage.Filter([t], Other(t.id)) == [];
  }

  /** The suffix a duplicate's name gets. */
  const CopySuffix := " (副本)"

  /** `handleDuplicateTemplate`: a copy with a new id, the suffixed name, fresh field ids and new timestamps. */
  function DuplicateTemplate(ts: seq<Template>, t: Template, c: Clock): seq<Template> {
    ts + [t.(id := c.stamp, name := t.name + CopySuffix, fields := Reid(t.fields, c.fieldId),
             createdAt := c.now, updatedAt := c.now)]
  }

  /**
   * One template is appended: its name is the original's followed by
   * " (副本)", its description and category are the original's, and its
   * fields have the original's names, types and options.
   */
  lemma DuplicateShape(ts: seq<Template>, t: Template, c: Clock)
    ensures var r := DuplicateTemplate(ts, t, c);
            |r| == |ts| + 1 && r[..|ts|] == ts && r[|ts|].id == c.stamp
            && r[|ts|].name == t.name + " (副本)" && |r[|ts|].name| == |t.name| + 5
            && r[|ts|].description == t.description && r[|ts|].category == t.category
            && r[|ts|].createdAt == r[|ts|].updatedAt == c.now
            && SameShape(r[|ts|].fields, t.fields)
  {
    var r := DuplicateTemplate(ts, t, c);
    assert r[..|ts|] == ts;
  }

  /** Deleting the copy by its fresh id gives back the list before duplicating. */
  lemma DuplicateThenDelete(ts: seq<Template>, t: Template, c: Clock)
    requires c.stamp !in Ids(ts)
    ensures DeleteTemplate(DuplicateTemplate(ts, t, c), c.stamp) == ts
  {
    DeleteAppended(ts, t.(id := c.stamp, name := t.name + CopySuffix, fields := Reid(t.fields, c.fieldId),
                          createdAt := c.now, updatedAt := c.now));
  }

  // ---------------------------------------------------------------- searching

  /** The search test: name or description contains the query, ignoring case; the category is `all` or equal. */
  predicate Matches(t: Template, query: string, category: string) {
    (Contains(Lower(t.name), Lower(query)) || Contains(Lower(t.description), Lower(query)))
    && (category == "all" || t.category == category)
  }

  function Matching(query: string, category: string): Template -> bool {
    (t: Template) => Matches(t, query, category)
  }

  /** `filteredTemplates`. */
  function FilteredTemplates(ts: seq<Template>, query: string, category: string): seq<Template> {
    RelationPage.Filter(ts, Matching(query, category))
  }

  /** A template is listed exactly when it matches the search and the category, in list order. */
  lemma FilteredContents(a: seq<Template>, b: seq<Template>, query: string, category: string)
    ensures forall t :: t in FilteredTemplates(a, query, category) <==>
              t in a && (Contains(Lower(t.name), Lower(query)) || Contains(Lower(t.description), Lower(query)))
              && (category == "all" || t.category == category)
    ensures FilteredTemplates(a + b, query, category) == FilteredTemplates(a, query, category) + FilteredTemplates(b, query, category)
  {
    RelationPage.FilterConcat(a, b, Matching(query, category));
  }

  /** With an empty search under `all`, every template is listed. */
  lemma FilteredShowsAll(ts: seq<Template>)
    ensures FilteredTemplates(ts, "", "all") == ts
  {
    forall i | 0 <= i < |ts| ensures Matching("", "all")(ts[i]) {
      ContainsSelf(Lower(ts[i].name));
    }
    RelationPage.FilterKeepsAll(ts, Matching("", "all"));
  }

  // ---------------------------------------------------------------- categories

  datatype Category = Category(id: string, name: string, color: string)

  /** `templateCategories`; the fifth entry, `other`, is the fallback. */
  const Categories: seq<Category> := [
    Category("user", "用户相关", "bg-blue-500/20 text-blue-400"),
    Category("order", "订单相关", "bg-green-500/20 text-green-400"),
    Category("product", "商品相关", "bg-purple-500/20 text-purple-400"),
    Category("finance", "财务相关", "bg-yellow-500/20 text-yellow-400"),
    Category("other", "其他", "bg-gray-500/20 text-gray-400")
  ]

  /** `Array.prototype.find` on the id. */
  function FindCategory(cats: seq<Category>, id: string): (r: Option<Category>)
    ensures r.Some? <==> exists i :: 0 <= i < |cats| && cats[i].id == id
    ensures r.Some? ==> r.value in cats && r.value.id == id
  {
    if cats == [] then None
    else if cats[0].id == id then Some(cats[0])
    else
      var r := FindCategory(cats[1..], id);
      assert forall i :: 1 <= i < |cats| ==> cats[i] == cats[1..][i - 1];
      r
  }

  /** `getCategoryInfo`. */
  function CategoryInfo(id: string): Category {
    match FindCategory(Categories, id)
    case Some(c) => c
    case None => Categories[4]
  }

  /** A listed id gets its own entry; any other id gets the `other` entry. */
  lemma CategoryInfoFallback(id: string)
    ensures CategoryInfo(id) in Categories
    ensures CategoryInfo(id).id == if id in {"user", "order", "product", "finance"} then id else "other"
  {
    if id !in {"user", "order", "product", "finance", "other"} {
      assert forall i :: 0 <= i < |Categories| ==> Categories[i].id != id;
    }
  }
}
