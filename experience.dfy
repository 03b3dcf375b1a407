/** The experience section: one experience per page behind a clamped pager,
    and each card's "View more" truncation of its responsibilities. */
module ExperienceSection {
  import opened JsValues

  datatype Experience = Experience(
    id: int,
    role: string,
    company: string,
    responsibilities: seq<string>,
    skills: seq<string>)

  /** `maxVisible`: how many responsibilities a collapsed card lists. */
  const MaxVisible: nat := 2

  function Min(a: int, b: int): int {
    if a <= b then a else b
  }

  /** The responsibilities a card lists: all of them when expanded, else
      `slice(0, maxVisible)`, which is the whole list when it is shorter. */
  function VisibleResponsibilities(responsibilities: seq<string>, expanded: bool): (r: seq<string>)
    ensures expanded ==> r == responsibilities
    ensures !expanded ==> |r| == Min(MaxVisible, |responsibilities|)
    ensures forall i :: 0 <= i < |r| ==> r[i] == responsibilities[i]
  {
    if expanded then responsibilities
    else responsibilities[..Min(MaxVisible, |responsibilities|)]
  }

  /** The "View more" / "View less" button is rendered. */
  predicate ToggleShown(responsibilities: seq<string>) {
    |responsibilities| > MaxVisible
  }

  /** The button is there exactly when the collapsed card hides something. */
  lemma ToggleShownIffHidden(responsibilities: seq<string>)
    ensures ToggleShown(responsibilities) <==> VisibleResponsibilities(responsibilities, false) != responsibilities
  {
    if ToggleShown(responsibilities) {
      assert |VisibleResponsibilities(responsibilities, false)| < |responsibilities|;
    } else {
      assert VisibleResponsibilities(responsibilities, false) == responsibilities[..|responsibilities|];
    }
  }

  /** The previous-page updater, `Math.max(prev - 1, 1)`. */
  function PrevPage(p: int): (r: int)
    ensures r >= 1
    ensures p >= 1 ==> r <= p && (r == p <==> p == 1)
    ensures p > 1 ==> r == p - 1
  {
    if p - 1 >= 1 then p - 1 else 1
  }

  /** The next-page updater, `Math.min(prev + 1, totalPages)`. */
  function NextPage(p: int, total: int): (r: int)
    ensures r <= total
    ensures 1 <= p <= total ==> p <= r && (r == p <==> p == total)
    ensures p < total ==> r == p + 1
  {
    Min(p + 1, total)
  }

  /** The numbered buttons, `Array.from({length: totalPages}, (_, i) => i + 1)`. */
  function PageNumbers(total: nat): (r: seq<int>)
    ensures |r| == total
  {
    seq(total, i requires 0 <= i < total => i + 1)
  }

  /** The numbered buttons offer exactly the pages 1 to `total`, in order. */
  lemma PageNumbersAreThePages(total: nat)
    ensures forall n :: n in PageNumbers(total) <==> 1 <= n <= total
    ensures forall i, j :: 0 <= i < j < total ==> PageNumbers(total)[i] < PageNumbers(total)[j]
  {
    forall n | 1 <= n <= total
      ensures n in PageNumbers(total)
    {
      assert PageNumbers(total)[n - 1] == n;
    }
  }

  /** Every way of changing the page keeps it between 1 and `total`. */
  lemma PagerStaysInBounds(p: int, total: int, n: int)
    requires 1 <= p <= total
    requires n in PageNumbers(total)
    ensures 1 <= PrevPage(p) <= total
    ensures 1 <= NextPage(p, total) <= total
    ensures 1 <= n <= total
  {
    PageNumbersAreThePages(total);
  }

  /** The section's `currentPage` and the shown card's `expanded` flag. The
      card is keyed by the page, so a page change mounts a fresh card,
      collapsed again. */
  class ExperienceState {
    const experiences: seq<Experience>
    var currentPage: int
    var expanded: bool

    /** `totalPages`. */
    function TotalPages(): (r: nat)
      ensures r == |experiences|
    {
      |experiences|
    }

    /** The page is always one the pager can show; with no experiences it
        stays at 1. */
    ghost predicate Valid()
      reads this
    {
      1 <= currentPage && (currentPage == 1 || currentPage <= TotalPages())
    }

    /** The pager is rendered only when there is more than one page. */
    predicate ControlsShown() {
      TotalPages() > 1
    }

    predicate PrevDisabled()
      reads this
    {
      currentPage == 1
    }

    predicate NextDisabled()
      reads this
    {
      currentPage == TotalPages()
    }

    /** `experiences[currentPage - 1]`, undefined when out of range. */
    function Current(): (r: Option<Experience>)
      reads this
      ensures Valid() && TotalPages() >= 1 ==> r.Some? && r.value == experiences[currentPage - 1]
    {
      At(experiences, currentPage - 1)
    }

    /** The responsibilities the shown card lists. With no experiences the
        source has no card to render, so a page must exist. */
    function Shown(): (r: seq<string>)
      requires Valid() && TotalPages() >= 1
      reads this
      ensures expanded ==> r == experiences[currentPage - 1].responsibilities
      ensures !expanded ==> r == experiences[currentPage - 1].responsibilities[..Min(MaxVisible, |experiences[currentPage - 1].responsibilities|)]
    {
      VisibleResponsibilities(Current().value.responsibilities, expanded)
    }

    constructor (experiences: seq<Experience>)
      ensures this.experiences == experiences
      ensures currentPage == 1 && !expanded && Valid()
      ensures TotalPages() == |experiences|
    {
      this.experiences := experiences;
      currentPage := 1;
      expanded := false;
    }

    /** The left chevron. */
    method Previous()
      requires Valid() && ControlsShown()
      modifies this
      ensures Valid()
      ensures currentPage == PrevPage(old(currentPage))
      ensures old(PrevDisabled()) <==> currentPage == old(currentPage)
      ensures expanded == (old(expanded) && currentPage == old(currentPage))
    {
      var p := PrevPage(currentPage);
      if p != currentPage {
        expanded := false;
      }
      currentPage := p;
    }

    /** The right chevron. */
    method Next()
      requires Valid() && ControlsShown()
      modifies this
      ensures Valid()
      ensures currentPage == NextPage(old(currentPage), TotalPages())
      ensures old(NextDisabled()) <==> currentPage == old(currentPage)
      ensures expanded == (old(expanded) && currentPage == old(currentPage))
    {
      var p := NextPage(currentPage, TotalPages());
      if p != currentPage {
        expanded := false;
      }
      currentPage := p;
    }

    /** A numbered button. */
    method GoTo(n: int)
      requires Valid() && ControlsShown()
      requires n in PageNumbers(TotalPages())
      modifies this
      ensures Valid()
      ensures currentPage == n
      ensures expanded == (old(expanded) && n == old(currentPage))
    {
      PageNumbersAreThePages(TotalPages());
      if n != currentPage {
        expanded := false;
      }
      currentPage := n;
    }

    /** "View more" / "View less" on the shown card. */
    method ToggleExpanded()
      requires Current().Some? && ToggleShown(Current().value.responsibilities)
      modifies this`expanded
      ensures expanded == !old(expanded)
    {
      expanded := !expanded;
    }
  }

  /** The section's record, as far as the pager and the card depend on it. */
  const Shipped: seq<Experience> := [
    Experience(1, "SDE Intern", "TaskLabs", [
      "Developed Chrome Extensions using React.js and Vite, enhancing drag-and-drop and item reordering capabilities",
      "Integrated Redux for state management, streamlining search functionalities and optimizing dashboard modules",
      "Improved dynamic UI updates and resolved bugs to ensure seamless component interactions",
      "Contributed to Selenium test automation, enhancing QA processes and product reliability",
      "Optimized internal dashboards and feedback pages with Next.js, significantly improving performance and SEO"
    ], ["React.js", "Redux", "Chrome Extensions", "Vite", "Next.js", "Selenium", "Git"])
  ]

  /** The shipped data holds one experience, so a state over it has
      `TotalPages() == 1` and `ControlsShown()` is false; the card starts
      with two of its five responsibilities and a "View more" button. */
  lemma ShippedSinglePageWithToggle()
    ensures |Shipped| == 1
    ensures ToggleShown(Shipped[0].responsibilities)
    ensures VisibleResponsibilities(Shipped[0].responsibilities, false) == Shipped[0].responsibilities[..2]
  {
  }
}
