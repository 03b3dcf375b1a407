/** The hobby-project gallery: its latest-first order, the single-slot
    image preview and which link buttons a card shows. */
module HobbyProjects {
  import opened JsValues
  import opened Chronology

  datatype HobbyProject = HobbyProject(
    id: string,
    name: string,
    date: MonthYear,
    imageUrl: Option<string>,
    githubLink: Option<string>,
    demoLink: Option<string>)

  function DateOf(p: HobbyProject): MonthYear {
    p.date
  }

  /** `sortedProjects`: a sorted copy of the list, latest first by year
      and then month; projects with the same month keep their order. */
  function SortedProjects(projects: seq<HobbyProject>): seq<HobbyProject> {
    LatestFirst(projects, DateOf)
  }

  const Placeholder := "/placeholder.png"

  /** The image a card shows and opens: `imageUrl || "/placeholder.png"`. */
  function PreviewSource(p: HobbyProject): (r: string)
    ensures r != ""
    ensures Truthy(p.imageUrl) ==> r == p.imageUrl.value
    ensures !Truthy(p.imageUrl) ==> r == Placeholder
  {
    OrElse(p.imageUrl, Placeholder)
  }

  /** The page's `previewImg` state: at most one image is previewed. */
  class Gallery {
    var previewImg: Option<string>

    /** An open preview always has an image to show. */
    ghost predicate Valid()
      reads this
    {
      previewImg.Some? ==> previewImg.value != ""
    }

    /** The modal is rendered when `previewImg` is truthy. */
    predicate ModalShown()
      reads this
    {
      Truthy(previewImg)
    }

    constructor ()
      ensures Valid() && previewImg == None && !ModalShown()
    {
      previewImg := None;
    }

    /** Clicking a card's image opens it, replacing any preview already open. */
    method OpenPreview(p: HobbyProject)
      modifies this
      ensures Valid() && ModalShown()
      ensures previewImg == Some(PreviewSource(p))
    {
      previewImg := Some(PreviewSource(p));
    }

    /** Clicking the dark backdrop around the image closes the preview. */
    method ClickBackdrop()
      modifies this
      ensures Valid() && previewImg == None && !ModalShown()
    {
      previewImg := None;
    }

    /** The close button clears the preview; the click then bubbles to the
        backdrop, which clears it again. */
    method ClickCloseButton()
      modifies this
      ensures Valid() && previewImg == None && !ModalShown()
    {
      previewImg := None;
      ClickBackdrop();
    }

    /** A click on the image itself stops propagating before the backdrop:
        nothing changes. */
    method ClickImage()
      requires Valid() && ModalShown()
      ensures Valid() && ModalShown()
      ensures previewImg == old(previewImg)
    {
    }
  }

  datatype LinkButton = ViewCode(url: string) | LiveDemo(url: string)

  /** The action buttons of a card, in order: "View Code" when a GitHub link
      is given and not empty, then "Live Demo" likewise. */
  function LinkButtons(p: HobbyProject): (r: seq<LinkButton>)
    ensures |r| <= 2
    ensures forall i :: 0 <= i < |r| ==> r[i].url != ""
    ensures forall u :: ViewCode(u) in r <==> p.githubLink == Some(u) && u != ""
    ensures forall u :: LiveDemo(u) in r <==> p.demoLink == Some(u) && u != ""
    ensures |r| == 2 ==> r[0].ViewCode? && r[1].LiveDemo?
  {
    (if Truthy(p.githubLink) then [ViewCode(p.githubLink.value)] else []) +
    (if Truthy(p.demoLink) && p.demoLink.value != "" then [LiveDemo(p.demoLink.value)] else [])
  }

  /** The gallery's records, as far as the order depends on them (the
      real ids are generated at load time with `uuidv4`). */
  const Shipped: seq<HobbyProject> := [
    HobbyProject("stride", "Stride", MonthYear("Aug", 2025),
      Some("/assets/banners/stride-banner.png"),
      Some("https://github.com/mskchaithanyaraj/stride.git"), Some("https://stride365.vercel.app/")),
    HobbyProject("interview-prep", "Interview Prep Checklist", MonthYear("Jun", 2025),
      Some("/assets/banners/interview-prep-banner.png"),
      Some("https://github.com/mskchaithanyaraj/interview-prep-checklist.git"), Some("https://interviewprep-pi.vercel.app/")),
    HobbyProject("test-for-automation", "Test for Automation", MonthYear("Jun", 2025),
      Some("/assets/banners/test-for-automation-banner.png"),
      Some("https://github.com/mskchaithanyaraj/test-for-automation"), Some("https://test-for-automation.vercel.app/"))
  ]

  /** On the shipped data "Stride" (August 2025) comes first. */
  lemma ShippedStrideFirst()
    ensures SortedProjects(Shipped)[0].name == "Stride"
  {
    assert MonthIndex("Aug") == 7 && MonthIndex("Jun") == 5;
    FirstIsNewest(Shipped, DateOf, Shipped[0]);
  }

  /** The two June 2025 projects keep their order in the sorted list. */
  lemma ShippedJuneKeepsOrder()
    ensures WithKey(SortedProjects(Shipped), DateOf, MonthYear("Jun", 2025)) == [Shipped[1], Shipped[2]]
  {
    var k := MonthYear("Jun", 2025);
    assert MonthIndex("Aug") == 7 && MonthIndex("Jun") == 5;
    assert Shipped == [Shipped[0]] + ([Shipped[1]] + ([Shipped[2]] + []));
    WithKeyCons(Shipped[0], [Shipped[1]] + ([Shipped[2]] + []), DateOf, k);
    WithKeyCons(Shipped[1], [Shipped[2]] + [], DateOf, k);
    WithKeyCons(Shipped[2], [], DateOf, k);
  }
}
