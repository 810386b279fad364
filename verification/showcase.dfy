/**
 * The showcase section: a fixed project catalogue, a category filter
 * driven by four buttons, and the choice of which button is highlighted.
 */
module Showcase {

  /** `Category`: the values a filter button can select. */
  datatype Category = All | Mobile | Web | Desktop
  {
    /** The string literal the category stands for. */
    function Name(): string
    {
      match this
      case All => "all"
      case Mobile => "mobile"
      case Web => "web"
      case Desktop => "desktop"
    }
  }

  /** `Project`: a catalogue entry. Its category is a plain string. */
  datatype Project = Project(id: nat, title: string, category: string)

  /** `projects`: the shipped catalogue, in display order. */
  const Projects: seq<Project> := [
    Project(1, "Mobile App Dashboard", "mobile"),
    Project(2, "E-commerce Platform", "web"),
    Project(3, "Analytics Dashboard", "desktop"),
    Project(4, "Travel Booking App", "mobile"),
    Project(5, "Content Management System", "web"),
    Project(6, "Desktop Media Player", "desktop")
  ]

  /** `ps.filter(p => p.category === c)`. */
  function Filter(ps: seq<Project>, c: string): (r: seq<Project>)
    ensures |r| <= |ps|
  {
    if ps == [] then []
    else (if ps[0].category == c then [ps[0]] else []) + Filter(ps[1..], c)
  }

  /** `filteredProjects`: everything for `'all'`, otherwise only projects of
      the active category. */
  function FilteredProjects(active: Category, ps: seq<Project>): (r: seq<Project>)
    ensures |r| <= |ps|
    ensures active == All ==> r == ps
    ensures active != All ==> forall i :: 0 <= i < |r| ==> r[i].category == active.Name()
  {
    if active == All then ps
    else
      FilterSound(ps, active.Name());
      Filter(ps, active.Name())
  }

  /** `xs` can be obtained from `ys` by deleting elements (order kept). */
  predicate IsSubsequence<T(==)>(xs: seq<T>, ys: seq<T>)
    decreases |ys|
  {
    || xs == []
    || (&& ys != []
        && (|| (xs[0] == ys[0] && IsSubsequence(xs[1..], ys[1..]))
            || IsSubsequence(xs, ys[1..])))
  }

  /** A subsequence has no element more often than the sequence it comes from. */
  lemma {:induction false} SubsequenceMultiset<T>(xs: seq<T>, ys: seq<T>)
    requires IsSubsequence(xs, ys)
    ensures multiset(xs) <= multiset(ys)
    decreases |ys|
  {
    if xs != [] {
      assert ys == [ys[0]] + ys[1..];
      if IsSubsequence(xs, ys[1..]) {
        SubsequenceMultiset(xs, ys[1..]);
      } else {
        assert xs == [xs[0]] + xs[1..];
        SubsequenceMultiset(xs[1..], ys[1..]);
      }
    }
  }

  /** The filter keeps the catalogue order: its result is a subsequence. */
  lemma {:induction false} FilterSubsequence(ps: seq<Project>, c: string)
    ensures IsSubsequence(Filter(ps, c), ps)
    decreases |ps|
  {
    if ps != [] {
      FilterSubsequence(ps[1..], c);
      var r := Filter(ps, c);
      if ps[0].category == c {
        assert r == [ps[0]] + Filter(ps[1..], c);
        assert r[0] == ps[0] && r[1..] == Filter(ps[1..], c);
      } else {
        assert r == Filter(ps[1..], c);
      }
    }
  }

  /** Every project the filter keeps has the requested category. */
  lemma {:induction false} FilterSound(ps: seq<Project>, c: string)
    ensures forall i :: 0 <= i < |Filter(ps, c)| ==> Filter(ps, c)[i].category == c
    decreases |ps|
  {
    if ps != [] {
      FilterSound(ps[1..], c);
    }
  }

  /** No project of the requested category is dropped: each occurs in the
      result as often as in the input. */
  lemma {:induction false} FilterComplete(ps: seq<Project>, c: string)
    ensures forall p: Project :: p.category == c ==> multiset(Filter(ps, c))[p] == multiset(ps)[p]
    decreases |ps|
  {
    if ps != [] {
      FilterComplete(ps[1..], c);
      assert ps == [ps[0]] + ps[1..];
    }
  }

  /** Filtering what was already filtered by the same category changes
      nothing. */
  lemma {:induction false} FilterIdempotent(ps: seq<Project>, c: string)
    ensures Filter(Filter(ps, c), c) == Filter(ps, c)
    decreases |ps|
  {
    if ps != [] {
      FilterIdempotent(ps[1..], c);
      if ps[0].category == c {
        var r := Filter(ps, c);
        assert r == [ps[0]] + Filter(ps[1..], c);
        assert r[0] == ps[0] && r[1..] == Filter(ps[1..], c);
        assert Filter(r, c) == [r[0]] + Filter(r[1..], c);
      } else {
        assert Filter(ps, c) == Filter(ps[1..], c);
      }
    }
  }

  /** The three properties above pin the filter down: any order-preserving
      selection of matching projects that drops none of them is the filter. */
  lemma {:induction false} FilterUnique(ps: seq<Project>, c: string, r: seq<Project>)
    requires IsSubsequence(r, ps)
    requires forall i :: 0 <= i < |r| ==> r[i].category == c
    requires forall p: Project :: p.category == c ==> multiset(r)[p] == multiset(ps)[p]
    ensures r == Filter(ps, c)
    decreases |ps|
  {
    if ps != [] {
      var p, rest := ps[0], ps[1..];
      assert ps == [p] + rest;
      if p.category != c {
        assert IsSubsequence(r, rest);
        forall q: Project | q.category == c
          ensures multiset(r)[q] == multiset(rest)[q]
        {
          assert q != p;
        }
        FilterUnique(rest, c, r);
      } else if IsSubsequence(r, rest) {
        SubsequenceMultiset(r, rest);
        assert false;
      } else {
        assert r == [p] + r[1..];
        forall q: Project | q.category == c
          ensures multiset(r[1..])[q] == multiset(rest)[q]
        {
          assert multiset(r) == multiset{p} + multiset(r[1..]);
        }
        FilterUnique(rest, c, r[1..]);
      }
    }
  }

  /** `filteredProjects` in full: `'all'` gives the list itself; any other
      category gives the order-preserving selection of exactly the projects of
      that category. */
  lemma FilteredProjectsSpec(active: Category, ps: seq<Project>)
    ensures active == All ==> FilteredProjects(active, ps) == ps
    ensures active != All ==> IsSubsequence(FilteredProjects(active, ps), ps)
    ensures active != All ==> forall i :: 0 <= i < |FilteredProjects(active, ps)| ==>
      FilteredProjects(active, ps)[i].category == active.Name()
    ensures active != All ==> forall p: Project :: p.category == active.Name() ==>
      multiset(FilteredProjects(active, ps))[p] == multiset(ps)[p]
  {
    if active != All {
      FilterSubsequence(ps, active.Name());
      FilterSound(ps, active.Name());
      FilterComplete(ps, active.Name());
    }
  }

  /** The ids of a list of projects, in order. */
  function Ids(ps: seq<Project>): (ids: seq<nat>)
    ensures |ids| == |ps|
    ensures forall i :: 0 <= i < |ps| ==> ids[i] == ps[i].id
  {
    if ps == [] then [] else [ps[0].id] + Ids(ps[1..])
  }

  /** On a list whose projects are all mobile, web or desktop, the three
      category filters split the list: together they hold each project as
      often as the list does. */
  lemma {:induction false} FilterPartition(ps: seq<Project>)
    requires forall i :: 0 <= i < |ps| ==>
      ps[i].category == "mobile" || ps[i].category == "web" || ps[i].category == "desktop"
    ensures multiset(FilteredProjects(Mobile, ps)) + multiset(FilteredProjects(Web, ps))
          + multiset(FilteredProjects(Desktop, ps)) == multiset(ps)
    decreases |ps|
  {
    if ps != [] {
      FilterPartition(ps[1..]);
      assert ps == [ps[0]] + ps[1..];
    }
  }

  /** The mobile filter on the shipped catalogue keeps entries 1 and 4. */
  lemma CatalogueMobile()
    ensures Filter(Projects, "mobile") == [Projects[0], Projects[3]]
  {
  }

  /** The web filter on the shipped catalogue keeps entries 2 and 5. */
  lemma CatalogueWeb()
    ensures Filter(Projects, "web") == [Projects[1], Projects[4]]
  {
  }

  /** The desktop filter on the shipped catalogue keeps entries 3 and 6. */
  lemma CatalogueDesktop()
    ensures Filter(Projects, "desktop") == [Projects[2], Projects[5]]
  {
  }

  /** The shipped catalogue: `'all'` shows all six projects in order, and
      the other three filters show ids [1,4], [2,5] and [3,6]. */
  lemma CatalogueFilters()
    ensures FilteredProjects(All, Projects) == Projects
    ensures Ids(FilteredProjects(Mobile, Projects)) == [1, 4]
    ensures Ids(FilteredProjects(Web, Projects)) == [2, 5]
    ensures Ids(FilteredProjects(Desktop, Projects)) == [3, 6]
  {
  }

  /** Every shipped project is mobile, web or desktop. */
  lemma CatalogueCategories()
    ensures forall i :: 0 <= i < |Projects| ==>
      (Projects[i].category == "mobile" || Projects[i].category == "web" || Projects[i].category == "desktop")
  {
  }

  /** The three category filters partition the shipped catalogue. */
  lemma CataloguePartition()
    ensures multiset(FilteredProjects(Mobile, Projects)) + multiset(FilteredProjects(Web, Projects))
          + multiset(FilteredProjects(Desktop, Projects)) == multiset(Projects)
  {
    CatalogueCategories();
    FilterPartition(Projects);
  }

  /** A filter button: the category it selects and its caption. */
  datatype CategoryOption = CategoryOption(value: Category, caption: string)

  /** `categories`: the buttons, in display order. */
  const Categories: seq<CategoryOption> := [
    CategoryOption(All, "All Projects"),
    CategoryOption(Mobile, "Mobile"),
    CategoryOption(Web, "Web"),
    CategoryOption(Desktop, "Desktop")
  ]

  /** The two button styles the filter bar uses. */
  datatype Variant = Primary | Ghost

  /** The variant of a filter button: among the filter bar's buttons, the
      highlighted one is the one sitting where the active category's button
      sits. */
  function ButtonVariant(active: Category, option: CategoryOption): (r: Variant)
    ensures option in Categories ==> (r == Primary <==> option == Categories[ButtonIndex(active)])
  {
    if active == option.value then Primary else Ghost
  }

  /** Where the button for category `c` sits in the filter bar. */
  function ButtonIndex(c: Category): (i: nat)
    ensures i < |Categories| && Categories[i].value == c
  {
    match c
    case All => 0
    case Mobile => 1
    case Web => 2
    case Desktop => 3
  }

  /** Whatever the active category, exactly one button is highlighted: the
      one that selects it. */
  lemma ExactlyOnePrimary(active: Category)
    ensures forall i :: 0 <= i < |Categories| ==>
      (ButtonVariant(active, Categories[i]) == Primary <==> i == ButtonIndex(active))
  {
  }

  /** The section's state: the `activeCategory` slot. */
  datatype ShowcaseState = ShowcaseState(activeCategory: Category)

  /** The state on mount. */
  const InitialState := ShowcaseState(All)

  /** A filter button's `onClick`: the active category becomes its value,
      and a clicked bar button becomes the only highlighted one. */
  function Click(s: ShowcaseState, option: CategoryOption): (r: ShowcaseState)
    ensures r.activeCategory == option.value
    ensures option in Categories ==> forall j :: 0 <= j < |Categories| ==>
      (ButtonVariant(r.activeCategory, Categories[j]) == Primary <==> Categories[j] == option)
  {
    s.(activeCategory := option.value)
  }

  /** The projects the grid shows in state `s`. */
  function Visible(s: ShowcaseState): seq<Project>
  {
    FilteredProjects(s.activeCategory, Projects)
  }

  /** On mount the whole catalogue shows and "All Projects" is the one
      highlighted button. */
  lemma InitialView()
    ensures Visible(InitialState) == Projects
    ensures forall i :: 0 <= i < |Categories| ==>
      (ButtonVariant(InitialState.activeCategory, Categories[i]) == Primary <==> i == 0)
  {
  }

  /** Clicking button `i`, from any state, makes its category the active one,
      makes it the only highlighted button and shows that category's
      projects. */
  lemma ClickSelects(s: ShowcaseState, i: nat)
    requires i < |Categories|
    ensures Click(s, Categories[i]).activeCategory == Categories[i].value
    ensures forall j :: 0 <= j < |Categories| ==>
      (ButtonVariant(Click(s, Categories[i]).activeCategory, Categories[j]) == Primary <==> j == i)
    ensures Visible(Click(s, Categories[i])) == FilteredProjects(Categories[i].value, Projects)
  {
  }
}
