/** The certifications section: the category buttons, the exact-match
    filter and each card's full-size preview. */
module Certifications {
  import opened JsValues
  import Seqs

  /** The categories offered as buttons, in order. The record type also
      allows "Workshops", which has no button. */
  const Categories: seq<string> :=
    ["Intercollege Competitions", "NPTEL", "Course Completions", "Podcasts"]

  datatype Certification = Certification(
    id: string,
    name: string,
    imageUrl: string,
    category: string,
    issuer: Option<string>,
    date: Option<string>)

  function InCategory(selected: string): Certification -> bool {
    (c: Certification) => c.category == selected
  }

  /** `certifications.filter(cert => cert.category === selectedCategory)`:
      exactly the certifications of the selected category, in data order. */
  function Displayed(certs: seq<Certification>, selected: string): (r: seq<Certification>)
    ensures forall i :: 0 <= i < |r| ==> r[i].category == selected && r[i] in certs
    ensures forall c :: c in certs && c.category == selected ==> c in r && multiset(r)[c] == multiset(certs)[c]
    ensures Seqs.IsSubsequence(r, certs)
  {
    Seqs.FilterIsSubsequence(certs, InCategory(selected));
    Seqs.Filter(certs, InCategory(selected))
  }

  /** With any selection a button can make, no "Workshops" certification is shown. */
  lemma WorkshopsNeverDisplayed(certs: seq<Certification>, selected: string)
    requires selected in Categories
    ensures forall c :: c in Displayed(certs, selected) ==> c.category != "Workshops"
  {
  }

  /** The section's `selectedCategory` state. */
  class CertificationsState {
    var selectedCategory: string

    ghost predicate Valid()
      reads this
    {
      selectedCategory in Categories
    }

    /** The first category is selected initially. */
    constructor ()
      ensures Valid()
      ensures selectedCategory == Categories[0] == "Intercollege Competitions"
    {
      selectedCategory := Categories[0];
    }

    /** A category button: only the listed categories have one. */
    method SelectCategory(category: string)
      requires category in Categories
      modifies this
      ensures Valid() && selectedCategory == category
    {
      selectedCategory := category;
    }

    /** The grid: the certifications of the selected category, in data
        order, and never a workshop while the selection is a button's. */
    function Shown(certs: seq<Certification>): (r: seq<Certification>)
      reads this
      ensures forall i :: 0 <= i < |r| ==> r[i].category == selectedCategory && r[i] in certs
      ensures forall c :: c in certs && c.category == selectedCategory ==> c in r && multiset(r)[c] == multiset(certs)[c]
      ensures Seqs.IsSubsequence(r, certs)
      ensures Valid() ==> forall i :: 0 <= i < |r| ==> r[i].category != "Workshops"
    {
      Displayed(certs, selectedCategory)
    }
  }

  /** A card's `isOpen` state: the full-size image overlay. */
  class CertificationCard {
    var isOpen: bool

    constructor ()
      ensures !isOpen
    {
      isOpen := false;
    }

    /** Clicking the card opens the overlay. */
    method ClickCard()
      modifies this
      ensures isOpen
    {
      isOpen := true;
    }

    /** Clicking the dark overlay closes it. */
    method ClickOverlay()
      requires isOpen
      modifies this
      ensures !isOpen
    {
      isOpen := false;
    }

    /** Clicks on the image panel stop propagating: the overlay stays open. */
    method ClickPanel()
      requires isOpen
      ensures isOpen
    {
    }
  }

  const CardPlaceholder := "/placeholder.svg?height=192&width=384"
  const OverlayPlaceholder := "/placeholder.svg?height=600&width=800"

  /** The image on the card, `imageUrl || "/placeholder.svg?height=192&width=384"`. */
  function CardImage(c: Certification): (r: string)
    ensures r != ""
    ensures c.imageUrl != "" ==> r == c.imageUrl
    ensures c.imageUrl == "" ==> r == CardPlaceholder
  {
    OrElse(Some(c.imageUrl), CardPlaceholder)
  }

  /** The image in the overlay, with its own larger placeholder. */
  function OverlayImage(c: Certification): (r: string)
    ensures r != ""
    ensures c.imageUrl != "" ==> r == c.imageUrl
    ensures c.imageUrl == "" ==> r == OverlayPlaceholder
  {
    OrElse(Some(c.imageUrl), OverlayPlaceholder)
  }

  datatype InfoLine = IssuerLine(issuer: string) | DateLine(date: string)

  /** The optional lines under a card's title, in order: the issuer and the
      date, each only when that field is truthy. */
  function InfoLines(c: Certification): (r: seq<InfoLine>)
    ensures |r| <= 2
    ensures forall x :: IssuerLine(x) in r <==> c.issuer == Some(x) && x != ""
    ensures forall x :: DateLine(x) in r <==> c.date == Some(x) && x != ""
    ensures |r| == 2 ==> r[0].IssuerLine? && r[1].DateLine?
  {
    (if Truthy(c.issuer) then [IssuerLine(c.issuer.value)] else []) +
    (if Truthy(c.date) then [DateLine(c.date.value)] else [])
  }
}
