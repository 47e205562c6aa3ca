/** The list logic of the Highlights page: the category filter, the featured
    list, the category badge of a project card, its award icon and its
    two-tag preview with a "+N more" note. */
module Highlights {
  import opened Carousel

  /** The selector value that shows every project. */
  const AllCategories := "all"

  datatype Category = Category(id: string, name: string)

  /** The fields of a project the page computes with; the others (client,
      year, description, image) are only displayed. */
  datatype Project = Project(
    id: int,
    title: string,
    category: string,
    tags: seq<string>,
    awards: seq<string>,
    featured: bool)

  /** `s.filter(keep)`: the elements that satisfy `keep`, in their order. */
  function Filter<T>(s: seq<T>, keep: T -> bool): (r: seq<T>)
    ensures |r| <= |s|
    ensures forall i :: 0 <= i < |r| ==> keep(r[i]) && r[i] in s
    decreases |s|
  {
    if s == [] then []
    else (if keep(s[0]) then [s[0]] else []) + Filter(s[1..], keep)
  }

  /** `a` is `b` with some elements removed and the rest kept in order. */
  predicate IsSubsequence<T(==)>(a: seq<T>, b: seq<T>)
    decreases |b|
  {
    if a == [] then true
    else if b == [] then false
    else if a[0] == b[0] then IsSubsequence(a[1..], b[1..])
    else IsSubsequence(a, b[1..])
  }

  /** The filter keeps its input's order, drops exactly the elements that
      fail `keep`, and keeps every copy of those that pass. */
  lemma {:induction false} FilterSpec<T>(s: seq<T>, keep: T -> bool)
    ensures IsSubsequence(Filter(s, keep), s)
    ensures forall x :: x in Filter(s, keep) <==> x in s && keep(x)
    ensures forall x :: multiset(Filter(s, keep))[x] == if keep(x) then multiset(s)[x] else 0
    decreases |s|
  {
    if s != [] {
      FilterSpec(s[1..], keep);
      var rest := Filter(s[1..], keep);
      assert s == [s[0]] + s[1..];
      if keep(s[0]) {
        assert Filter(s, keep)[1..] == rest;
      } else {
        assert Filter(s, keep) == rest;
        if rest != [] {
          assert keep(rest[0]);
        }
      }
    }
  }

  /** `filteredProjects`: every project for the "all" selector, otherwise
      those of the selected category. */
  function FilteredProjects(projects: seq<Project>, selectedCategory: string): (r: seq<Project>)
    ensures |r| <= |projects|
    ensures forall i :: 0 <= i < |r| ==>
      r[i] in projects && (selectedCategory != AllCategories ==> r[i].category == selectedCategory)
  {
    if selectedCategory == AllCategories then projects
    else Filter(projects, (p: Project) => p.category == selectedCategory)
  }

  lemma FilteredProjectsSpec(projects: seq<Project>, selectedCategory: string)
    ensures var r := FilteredProjects(projects, selectedCategory);
      && (selectedCategory == AllCategories ==> r == projects)
      && (selectedCategory != AllCategories ==>
            && IsSubsequence(r, projects)
            && (forall p :: p in r <==> p in projects && p.category == selectedCategory)
            && (forall p :: multiset(r)[p] == if p.category == selectedCategory then multiset(projects)[p] else 0))
  {
    FilterSpec(projects, (p: Project) => p.category == selectedCategory);
  }

  /** `featuredProjects`: the projects flagged featured, in order. */
  function FeaturedProjects(projects: seq<Project>): (r: seq<Project>)
    ensures |r| <= |projects|
    ensures forall i :: 0 <= i < |r| ==> r[i] in projects && r[i].featured
  {
    Filter(projects, (p: Project) => p.featured)
  }

  lemma FeaturedProjectsSpec(projects: seq<Project>)
    ensures var r := FeaturedProjects(projects);
      && IsSubsequence(r, projects)
      && (forall p :: p in r <==> p in projects && p.featured)
      && (forall p :: multiset(r)[p] == if p.featured then multiset(projects)[p] else 0)
  {
    FilterSpec(projects, (p: Project) => p.featured);
  }

  /** The position of the first category from `k` on with the given id. */
  function FindCategoryFrom(categories: seq<Category>, id: string, k: nat): (r: Option<nat>)
    requires k <= |categories|
    ensures r.Some? ==>
      && k <= r.value < |categories| && categories[r.value].id == id
      && forall j :: k <= j < r.value ==> categories[j].id != id
    ensures r.None? ==> forall j :: k <= j < |categories| ==> categories[j].id != id
    decreases |categories| - k
  {
    if k == |categories| then None
    else if categories[k].id == id then Some(k)
    else FindCategoryFrom(categories, id, k + 1)
  }

  /** The text of a card's category badge, `categories.find(...)?.name`:
      the name of the first category whose id is the project's category,
      or nothing when there is none. */
  function BadgeName(categories: seq<Category>, project: Project): (r: Option<string>)
    ensures r.None? <==> forall j :: 0 <= j < |categories| ==> categories[j].id != project.category
    ensures r.Some? ==>
      exists i :: (&& 0 <= i < |categories|
                   && categories[i].id == project.category
                   && categories[i].name == r.value
                   && forall j :: 0 <= j < i ==> categories[j].id != project.category)
  {
    match FindCategoryFrom(categories, project.category, 0)
    case None => None
    case Some(i) => Some(categories[i].name)
  }

  /** What a card shows of its tags: the first two, and a "+N more" count
      when some are left out. */
  datatype TagPreview = TagPreview(shown: seq<string>, more: Option<nat>)

  function PreviewTags(tags: seq<string>): (r: TagPreview)
    ensures |r.shown| == if |tags| < 2 then |tags| else 2
    ensures r.shown == tags[..|r.shown|]
    ensures r.more.Some? <==> |tags| > 2
    ensures r.more.Some? ==> r.more.value == |tags| - 2
    ensures |r.shown| + (if r.more.Some? then r.more.value else 0) == |tags|
  {
    var shown := if |tags| < 2 then tags else tags[..2];
    TagPreview(shown, if |tags| > 2 then Some(|tags| - 2) else None)
  }

  /** The award icon is shown exactly for projects with at least one award. */
  predicate ShowsAward(project: Project) {
    |project.awards| > 0
  }

  /** One card of the "all projects" grid. */
  datatype Card = Card(title: string, badge: Option<string>, award: bool, tags: TagPreview)

  /** A card shows the award icon exactly when the project has an award, a
      badge exactly when some category has the project's category as id, and
      at most two tags. */
  function ProjectCard(categories: seq<Category>, project: Project): (r: Card)
    ensures r.award <==> |project.awards| > 0
    ensures r.badge.Some? <==> exists j :: 0 <= j < |categories| && categories[j].id == project.category
    ensures |r.tags.shown| <= 2 && |r.tags.shown| <= |project.tags|
    ensures r.tags.shown == project.tags[..|r.tags.shown|]
  {
    Card(project.title, BadgeName(categories, project), ShowsAward(project), PreviewTags(project.tags))
  }

  /** The grid: one card per filtered project, in order. */
  function Grid(categories: seq<Category>, projects: seq<Project>, selectedCategory: string): (r: seq<Card>)
    ensures var f := FilteredProjects(projects, selectedCategory);
      && |r| == |f|
      && forall i :: 0 <= i < |r| ==> r[i] == ProjectCard(categories, f[i])
  {
    var f := FilteredProjects(projects, selectedCategory);
    seq(|f|, i requires 0 <= i < |f| => ProjectCard(categories, f[i]))
  }
}
