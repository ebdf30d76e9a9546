/** The projects window: the category filter, the list/detail switch and what
    a card and a detail view show. */
module Projects {
  import opened Wrappers
  import opened Seqs

  datatype Project = Project(
    id: string,
    title: string,
    category: string,
    problem: string,
    solution: string,
    role: string,
    techStack: seq<string>,
    impact: string,
    github: Option<string>,
    live: Option<string>,
    pdf: Option<string>)

  const AllCategories := "All"
  const Categories := ["All", "Climate", "Tech", "Writing"]
  const PreviewLength := 3

  function InCategory(c: string): Project -> bool {
    (p: Project) => p.category == c
  }

  /** `filteredProjects`: the whole list for `All`, otherwise the projects of
      that category in their order. */
  function FilterProjects(projects: seq<Project>, filter: string): (r: seq<Project>)
    ensures filter == AllCategories ==> r == projects
    ensures filter != AllCategories ==> forall x :: x in r <==> x in projects && x.category == filter
    ensures filter != AllCategories ==>
      forall x :: multiset(r)[x] == if x.category == filter then multiset(projects)[x] else 0
    ensures IsSubsequence(r, projects)
  {
    if filter == AllCategories then
      FilterKeepsAll((p: Project) => true, projects);
      FilterIsSubsequence((p: Project) => true, projects);
      projects
    else
      FilterIsSubsequence(InCategory(filter), projects);
      FilterMultiplicity(InCategory(filter), projects);
      Filter(InCategory(filter), projects)
  }

  /** When every project has one of the three button categories, the three
      category lists split the whole list: their lengths add up to its length,
      so no project is listed twice or dropped. */
  lemma {:induction false} CategoryFiltersPartition(projects: seq<Project>)
    requires forall i :: 0 <= i < |projects| ==> IsButtonCategory(projects[i].category)
    ensures |FilterProjects(projects, "Climate")| + |FilterProjects(projects, "Tech")|
          + |FilterProjects(projects, "Writing")| == |projects|
    decreases |projects|
  {
    if projects != [] {
      var rest := projects[1..];
      assert forall i :: 0 <= i < |rest| ==> rest[i] == projects[i + 1];
      CategoryFiltersPartition(rest);
      ButtonCategories(projects[0].category);
      CategoryListCons(projects, "Climate");
      CategoryListCons(projects, "Tech");
      CategoryListCons(projects, "Writing");
    }
  }

  /** A category button other than `All`. */
  predicate IsButtonCategory(c: string) {
    c in Categories && c != AllCategories
  }

  lemma ButtonCategories(c: string)
    ensures IsButtonCategory(c) <==> c == "Climate" || c == "Tech" || c == "Writing"
  {
    assert Categories == [AllCategories, "Climate", "Tech", "Writing"];
  }

  /** A category list counts the head when it has that category. */
  lemma CategoryListCons(projects: seq<Project>, c: string)
    requires projects != [] && c != AllCategories
    ensures |FilterProjects(projects, c)| == (if projects[0].category == c then 1 else 0) + |FilterProjects(projects[1..], c)|
  {
    assert FilterProjects(projects, c) == Filter(InCategory(c), projects);
    assert FilterProjects(projects[1..], c) == Filter(InCategory(c), projects[1..]);
  }

  /** The card's tech-stack preview: the first three entries, in order. */
  function Preview(p: Project): (r: seq<string>)
    ensures r <= p.techStack
    ensures |r| == if |p.techStack| < PreviewLength then |p.techStack| else PreviewLength
  {
    Take(p.techStack, PreviewLength)
  }

  /** JavaScript truthiness of an optional string: present and not empty. */
  predicate Truthy(s: Option<string>) {
    s.Some? && s.value != ""
  }

  datatype LinkButton = GitHubButton | LiveDemoButton | PdfButton

  /** The detail view's buttons, in order, each drawn behind `field && …`. */
  function Buttons(p: Project): (r: seq<LinkButton>)
    ensures GitHubButton in r <==> Truthy(p.github)
    ensures LiveDemoButton in r <==> Truthy(p.live)
    ensures PdfButton in r <==> Truthy(p.pdf)
    ensures |r| <= 3
  {
    (if Truthy(p.github) then [GitHubButton] else [])
    + (if Truthy(p.live) then [LiveDemoButton] else [])
    + (if Truthy(p.pdf) then [PdfButton] else [])
  }

  /** An empty link string is present but falsy, so it draws no button. */
  lemma EmptyLinkDrawsNoButton(p: Project)
    requires p.github == Some("") && p.live.None? && p.pdf.None?
    ensures Buttons(p) == []
  {
  }

  /** The `selectedProject` and `filter` state over the fixed project list. */
  class ProjectsView {
    const projects: seq<Project>
    var selected: Option<Project>
    var filter: string

    constructor (projects: seq<Project>)
      ensures this.projects == projects && selected.None? && filter == AllCategories
    {
      this.projects := projects;
      selected := None;
      filter := AllCategories;
    }

    /** The detail view replaces the list exactly when a project is selected. */
    predicate ShowsDetail()
      reads this
    {
      selected.Some?
    }

    function Listed(): seq<Project>
      reads this
    {
      FilterProjects(projects, filter)
    }

    /** A category button. */
    method SetFilter(category: string)
      modifies this
      ensures filter == category && selected == old(selected)
    {
      filter := category;
    }

    /** Clicking a card opens its detail view. */
    method Select(p: Project)
      modifies this
      ensures selected == Some(p) && filter == old(filter)
      ensures ShowsDetail()
    {
      selected := Some(p);
    }

    /** "Back to Projects" returns to the list with the filter kept. */
    method Back()
      modifies this
      ensures selected.None? && filter == old(filter)
      ensures !ShowsDetail() && Listed() == old(Listed())
    {
      selected := None;
    }
  }
}
