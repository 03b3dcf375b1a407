/** The project timeline: its latest-first order and the per-project
    "View Complete Details" switches. */
module DetailedProjects {
  import opened Chronology

  datatype DetailedProject = DetailedProject(id: string, name: string, date: MonthYear)

  function DateOf(p: DetailedProject): MonthYear {
    p.date
  }

  /** `sortedProjects`: a sorted copy of the list, latest first by year
      and then month; projects with the same month keep their order. */
  function SortedProjects(projects: seq<DetailedProject>): seq<DetailedProject> {
    LatestFirst(projects, DateOf)
  }

  /** `expandedProjects[id] || false`: an id with no entry is collapsed. */
  predicate IsExpanded(expanded: map<string, bool>, id: string) {
    id in expanded && expanded[id]
  }

  /** The updater `toggleProjectDetails` passes to the state setter:
      `{...prev, [id]: !prev[id]}`, where a missing entry reads as
      `undefined` and so becomes `true`. */
  function Toggled(prev: map<string, bool>, id: string): (r: map<string, bool>)
    ensures IsExpanded(r, id) == !IsExpanded(prev, id)
    ensures forall other :: other != id ==> IsExpanded(r, other) == IsExpanded(prev, other)
    ensures r.Keys == prev.Keys + {id}
  {
    prev[id := !IsExpanded(prev, id)]
  }

  /** Toggling the same project twice restores every project's state. */
  lemma ToggleTwiceRestores(prev: map<string, bool>, id: string, other: string)
    ensures IsExpanded(Toggled(Toggled(prev, id), id), other) == IsExpanded(prev, other)
  {
  }

  /** The timeline page's `expandedProjects` state. */
  class Timeline {
    var expandedProjects: map<string, bool>

    /** Every project starts collapsed. */
    constructor ()
      ensures expandedProjects == map[]
      ensures forall id :: !IsExpanded(expandedProjects, id)
    {
      expandedProjects := map[];
    }

    /** The details button of project `id`. */
    method ToggleProjectDetails(id: string)
      modifies this
      ensures expandedProjects == Toggled(old(expandedProjects), id)
      ensures IsExpanded(expandedProjects, id) == !old(IsExpanded(expandedProjects, id))
      ensures forall other :: other != id ==>
        IsExpanded(expandedProjects, other) == old(IsExpanded(expandedProjects, other))
    {
      expandedProjects := Toggled(expandedProjects, id);
    }
  }

  /** The timeline's records, as far as the order depends on them. */
  const Shipped: seq<DetailedProject> := [
    DetailedProject("1", "COVID-19 Page", MonthYear("November", 2022)),
    DetailedProject("2", "Flats Page", MonthYear("December", 2022)),
    DetailedProject("3", "Navbar & Banner Section", MonthYear("February", 2023)),
    DetailedProject("4", "Todos Application", MonthYear("October", 2023)),
    DetailedProject("5", "Add User Forms", MonthYear("June", 2023)),
    DetailedProject("6", "Github Popular Repos", MonthYear("September", 2023)),
    DetailedProject("7", "CoWIN Dashboard", MonthYear("January", 2024)),
    DetailedProject("8", "Chatty: Real-Time Messaging App", MonthYear("January", 2025)),
    DetailedProject("9", "HealU: Personalized Nutrition & Meal Planning Platform", MonthYear("October", 2024)),
    DetailedProject("10", "Nxt Trendz (E-Commerce Clone)", MonthYear("April", 2024))
  ]

  /** On the shipped data the timeline starts with "Chatty" (January 2025). */
  lemma ShippedStartsWithChatty()
    ensures SortedProjects(Shipped)[0].name == "Chatty: Real-Time Messaging App"
  {
    FirstIsNewest(Shipped, DateOf, Shipped[7]);
  }

  /** On the shipped data the timeline ends with "COVID-19 Page" (November 2022). */
  lemma ShippedEndsWithCovidPage()
    ensures SortedProjects(Shipped)[|Shipped| - 1].name == "COVID-19 Page"
  {
    assert MonthIndex("November") == 10 && MonthIndex("December") == 11;
    LastIsOldest(Shipped, DateOf, Shipped[0]);
  }
}
