/** The study-materials page: category buttons with an "All" choice, the
    filter and its empty state. */
module Materials {
  import opened JsValues
  import Seqs

  /** The buttons, in order; "All" shows everything. */
  const MaterialCategories: seq<string> := ["All", "Programming Languages", "Database", "Career"]

  datatype Material = Material(
    id: string,
    title: string,
    url: string,
    category: string,
    tags: Option<seq<string>>)

  function Matches(selected: string): Material -> bool {
    (m: Material) => selected == "All" || m.category == selected
  }

  /** `filteredMaterials`: everything under "All", otherwise the materials
      whose category is exactly the selection; data order either way. */
  function FilteredMaterials(materials: seq<Material>, selected: string): (r: seq<Material>)
    ensures selected == "All" ==> r == materials
    ensures selected != "All" ==> forall i :: 0 <= i < |r| ==> r[i].category == selected
    ensures forall m :: m in materials && m.category == selected ==> m in r && multiset(r)[m] == multiset(materials)[m]
    ensures forall i :: 0 <= i < |r| ==> r[i] in materials
    ensures Seqs.IsSubsequence(r, materials)
  {
    Seqs.FilterIsSubsequence(materials, Matches(selected));
    if selected == "All" then
      Seqs.FilterKeepsAll(materials, Matches(selected));
      Seqs.Filter(materials, Matches(selected))
    else
      Seqs.Filter(materials, Matches(selected))
  }

  /** "No materials found in this category." */
  predicate EmptyStateShown(materials: seq<Material>, selected: string) {
    |FilteredMaterials(materials, selected)| == 0
  }

  /** The empty state shows exactly when no material passes the filter:
      under "All" only for an empty list, otherwise when no material has
      the selected category. */
  lemma EmptyStateIffNoMatch(materials: seq<Material>, selected: string)
    ensures EmptyStateShown(materials, selected) <==>
      (selected == "All" && materials == []) ||
      (selected != "All" && forall i :: 0 <= i < |materials| ==> materials[i].category != selected)
  {
    Seqs.FilterEmptyIff(materials, Matches(selected));
  }

  /** The page's `selectedCategory` state. */
  class MaterialsState {
    var selectedCategory: string

    ghost predicate Valid()
      reads this
    {
      selectedCategory in MaterialCategories
    }

    constructor ()
      ensures Valid() && selectedCategory == "All"
    {
      selectedCategory := "All";
    }

    /** A category button: only `materialCategories` have one. */
    method SelectCategory(category: string)
      requires category in MaterialCategories
      modifies this
      ensures Valid() && selectedCategory == category
    {
      selectedCategory := category;
    }

    /** The grid: every material under "All", otherwise those of the
        selected category, in data order. */
    function Shown(materials: seq<Material>): (r: seq<Material>)
      reads this
      ensures selectedCategory == "All" ==> r == materials
      ensures selectedCategory != "All" ==> forall i :: 0 <= i < |r| ==> r[i].category == selectedCategory
      ensures forall m :: m in materials && m.category == selectedCategory ==> m in r && multiset(r)[m] == multiset(materials)[m]
      ensures Seqs.IsSubsequence(r, materials)
    {
      FilteredMaterials(materials, selectedCategory)
    }
  }

  /** The page's records, as far as the filter depends on them. */
  const Shipped: seq<Material> := [
    Material("java-material", "Java Material",
      "https://docs.google.com/document/d/1dMBs7xkW6a0BM2Nh5llNdwaE4Sq_6e5wgJheDO4mADA/edit?usp=drive_link", "Programming Languages",
      Some(["Java", "OOP", "Programming", "Backend"])),
    Material("sql-material", "SQL Material",
      "https://docs.google.com/document/d/11K4-RsK2qJXIbYPKGn0wQljKtFKocl9NEZvchyPk-hA/edit?usp=drive_link", "Database",
      Some(["SQL", "Database", "Queries", "Data"])),
    Material("interview-prep", "Interview Prep",
      "https://docs.google.com/document/d/1EfxS4zD2NZv5_6Z6y1h8e9SBiiJ-H33yS0RAoAhI9G4/edit?usp=drive_link", "Career",
      Some(["Interview", "Coding", "Career", "Preparation"]))
  ]

  /** On the shipped data no button leads to the empty state. */
  lemma ShippedNeverEmpty(selected: string)
    requires selected in MaterialCategories
    ensures !EmptyStateShown(Shipped, selected)
  {
    EmptyStateIffNoMatch(Shipped, selected);
    if selected != "All" {
      var i := if selected == "Programming Languages" then 0 else if selected == "Database" then 1 else 2;
      assert Shipped[i].category == selected;
    }
  }
}
