/**
 * The element reference screen: a fixed table of 26 elements, the
 * case-insensitive search over it, the category colour scheme and the rule
 * that opens an element's details when the search leaves only that element.
 */
module Elements {
  import opened Wrappers
  import opened Sequences
  import opened Text

  /**
   * One row of the table. The physical quantities of a row (mass, density,
   * melting and boiling points) and its electron configuration are display
   * text only and are not part of the model.
   */
  datatype Element = Element(atomicNumber: nat, symbol: string, name: string, category: string)

  const Iron := Element(26, "Fe", "Iron", "transition_metal")

  /** The table, in declaration order. */
  const ElementData: seq<Element> := [
    Element(1, "H", "Hydrogen", "nonmetal"),
    Element(2, "He", "Helium", "noble_gas"),
    Element(3, "Li", "Lithium", "alkali_metal"),
    Element(4, "Be", "Beryllium", "alkaline_earth_metal"),
    Element(5, "B", "Boron", "metalloid"),
    Element(6, "C", "Carbon", "nonmetal"),
    Element(7, "N", "Nitrogen", "nonmetal"),
    Element(8, "O", "Oxygen", "nonmetal"),
    Element(9, "F", "Fluorine", "halogen"),
    Element(10, "Ne", "Neon", "noble_gas"),
    Element(11, "Na", "Sodium", "alkali_metal"),
    Element(12, "Mg", "Magnesium", "alkaline_earth_metal"),
    Element(13, "Al", "Aluminum", "post_transition_metal"),
    Element(14, "Si", "Silicon", "metalloid"),
    Element(15, "P", "Phosphorus", "nonmetal"),
    Element(16, "S", "Sulfur", "nonmetal"),
    Element(17, "Cl", "Chlorine", "halogen"),
    Element(18, "Ar", "Argon", "noble_gas"),
    Element(19, "K", "Potassium", "alkali_metal"),
    Element(20, "Ca", "Calcium", "alkaline_earth_metal"),
    Element(24, "Cr", "Chromium", "transition_metal"),
    Iron,
    Element(29, "Cu", "Copper", "transition_metal"),
    Element(47, "Ag", "Silver", "transition_metal"),
    Element(79, "Au", "Gold", "transition_metal"),
    Element(80, "Hg", "Mercury", "transition_metal")
  ]

  // ---------------------------------------------------------------------
  // The table's own invariants

  function AtomicNumbers(s: seq<Element>): (r: seq<int>)
    ensures |r| == |s| && forall i :: 0 <= i < |s| ==> r[i] == s[i].atomicNumber
  {
    seq(|s|, i requires 0 <= i < |s| => s[i].atomicNumber)
  }

  function Symbols(s: seq<Element>): (r: seq<string>)
    ensures |r| == |s| && forall i :: 0 <= i < |s| ==> r[i] == s[i].symbol
  {
    seq(|s|, i requires 0 <= i < |s| => s[i].symbol)
  }

  /** Atomic numbers increase strictly down the table, so they are keys. */
  lemma AtomicNumbersIncrease()
    ensures StrictlyIncreasing(AtomicNumbers(ElementData))
  {
    AdjacentIncreasingIsStrict(AtomicNumbers(ElementData));
  }

  /** No two rows share a symbol. */
  lemma SymbolsDistinct()
    ensures Distinct(Symbols(ElementData))
  {
  }

  // ---------------------------------------------------------------------
  // Search

  /**
   * Whether a row matches an already lower-cased query: its lower-cased name
   * contains the query, its lower-cased symbol is the query, or the decimal
   * form of its atomic number is the query.
   */
  predicate Matches(lowerQuery: string, e: Element)
  {
    || Contains(Lower(e.name), lowerQuery)
    || Lower(e.symbol) == lowerQuery
    || NatToString(e.atomicNumber) == lowerQuery
  }

  /** The rows a query selects against the lower-cased query `q`. */
  function FilterBy(q: string): (r: seq<Element>)
  {
    Filter(ElementData, (e: Element) => Matches(q, e))
  }

  /** The list the screen shows for the text typed into the search box. */
  function Search(searchText: string): (r: seq<Element>)
    ensures searchText == "" ==> r == ElementData
    ensures forall e :: e in r <==> e in ElementData && (searchText == "" || Matches(Lower(searchText), e))
  {
    if searchText == "" then ElementData else FilterBy(Lower(searchText))
  }

  /** The result lists rows of the table in the table's own order. */
  lemma SearchIsSubsequence(searchText: string)
    ensures IsSubsequence(Search(searchText), ElementData)
  {
    if searchText == "" {
      SubsequenceReflexive(ElementData);
    } else {
      FilterIsSubsequence(ElementData, (e: Element) => Matches(Lower(searchText), e));
    }
  }

  /** Queries that differ only in the case of their letters list the same rows. */
  lemma SearchIgnoresCase(a: string, b: string)
    requires Lower(a) == Lower(b)
    ensures Search(a) == Search(b)
  {
    assert |a| == |b|;
  }

  /**
   * The empty-query guard changes nothing: filtering with the empty string
   * would also keep every row, since every name contains it.
   */
  lemma EmptyQueryKeepsAll()
    ensures FilterBy("") == ElementData
  {
    forall e | e in ElementData ensures Matches("", e) {
      ContainsEmpty(Lower(e.name));
    }
    FilterKeepsAll(ElementData, (e: Element) => Matches("", e));
  }

  // The three worked queries. The table facts they rest on are checked
  // character by character against the literal table.

  /**
   * What the worked queries need to know of one character of a name: it is
   * no "z", no digit, and an "F" or "f" only in Fluorine or Sulfur.
   */
  ghost predicate NameCharFacts(k: nat, i: nat)
    requires k < |ElementData| && i < |ElementData[k].name|
  {
    var c := ElementData[k].name[i];
    c != 'z' && c != 'Z' && !IsDigit(c) && (c == 'F' ==> k == 8) && (c == 'f' ==> k == 15)
  }

  // The table is checked a few rows at a time.

  lemma NameCharsRows0To5()
    ensures forall k: nat, i: nat :: k < 5 && i < |ElementData[k].name| ==> NameCharFacts(k, i)
  {
  }

  lemma NameCharsRows5To10()
    ensures forall k: nat, i: nat :: 5 <= k < 10 && i < |ElementData[k].name| ==> NameCharFacts(k, i)
  {
  }

  lemma NameCharsRows10To15()
    ensures forall k: nat, i: nat :: 10 <= k < 15 && i < |ElementData[k].name| ==> NameCharFacts(k, i)
  {
  }

  lemma NameCharsRows15To20()
    ensures forall k: nat, i: nat :: 15 <= k < 20 && i < |ElementData[k].name| ==> NameCharFacts(k, i)
  {
  }

  lemma NameCharsRows20To26()
    ensures forall k: nat, i: nat :: 20 <= k < |ElementData| && i < |ElementData[k].name| ==> NameCharFacts(k, i)
  {
  }

  lemma NameChars()
    ensures forall k: nat, i: nat :: k < |ElementData| && i < |ElementData[k].name| ==> NameCharFacts(k, i)
  {
    NameCharsRows0To5();
    NameCharsRows5To10();
    NameCharsRows10To15();
    NameCharsRows15To20();
    NameCharsRows20To26();
  }

  /** Only Fluorine has a capital "F" in its name. */
  lemma OnlyFluorineHasCapitalF()
    ensures forall k, i ::
      0 <= k < |ElementData| && 0 <= i < |ElementData[k].name| && ElementData[k].name[i] == 'F' ==> k == 8
  {
    NameChars();
    forall k, i | 0 <= k < |ElementData| && 0 <= i < |ElementData[k].name| && ElementData[k].name[i] == 'F'
      ensures k == 8
    {
      assert NameCharFacts(k, i);
    }
  }

  /** Only Sulfur has a small "f" in its name. */
  lemma OnlySulfurHasSmallF()
    ensures forall k, i ::
      0 <= k < |ElementData| && 0 <= i < |ElementData[k].name| && ElementData[k].name[i] == 'f' ==> k == 15
  {
    NameChars();
    forall k, i | 0 <= k < |ElementData| && 0 <= i < |ElementData[k].name| && ElementData[k].name[i] == 'f'
      ensures k == 15
    {
      assert NameCharFacts(k, i);
    }
  }

  /** No name has a "z" in either case. */
  lemma NamesLackZ()
    ensures forall k, i :: 0 <= k < |ElementData| && 0 <= i < |ElementData[k].name| ==>
      ElementData[k].name[i] != 'z' && ElementData[k].name[i] != 'Z'
  {
    NameChars();
    forall k, i | 0 <= k < |ElementData| && 0 <= i < |ElementData[k].name|
      ensures ElementData[k].name[i] != 'z' && ElementData[k].name[i] != 'Z'
    {
      assert NameCharFacts(k, i);
    }
  }

  /** No name has a digit. */
  lemma NamesLackDigits()
    ensures forall k, i :: 0 <= k < |ElementData| && 0 <= i < |ElementData[k].name| ==>
      !IsDigit(ElementData[k].name[i])
  {
    NameChars();
    forall k, i | 0 <= k < |ElementData| && 0 <= i < |ElementData[k].name|
      ensures !IsDigit(ElementData[k].name[i])
    {
      assert NameCharFacts(k, i);
    }
  }

  /** Symbols are one or two letters; only iron's is "F" followed by a second letter. */
  lemma SymbolShapes()
    ensures forall k :: 0 <= k < |ElementData| ==>
      var sym := ElementData[k].symbol;
      (|sym| == 1 || |sym| == 2) && IsUpper(sym[0]) && !IsDigit(sym[0])
      && (|sym| == 2 && sym[0] == 'F' ==> k == 21)
  {
  }

  /** The two names with an "f" do not contain "fe". */
  lemma LowerNoFe(name: string)
    requires name == "Fluorine" || name == "Sulfur"
    ensures !Contains(Lower(name), "fe")
  {
    var lower := Lower(name);
    forall i | 0 <= i < |lower| - 1 ensures !(lower[i] == 'f' && lower[i + 1] == 'e') {
      LowerCharIs(name[i], 'f');
      LowerCharIs(name[i + 1], 'e');
    }
    NotContainsWithoutFirstPair(lower, "fe");
  }

  lemma NoOtherNameContainsFe(k: nat)
    requires k < |ElementData| && k != 21
    ensures !Contains(Lower(ElementData[k].name), "fe")
  {
    var name := ElementData[k].name;
    var lower := Lower(name);
    if k == 8 || k == 15 {
      assert name == "Fluorine" || name == "Sulfur";
      LowerNoFe(name);
    } else {
      OnlyFluorineHasCapitalF();
      OnlySulfurHasSmallF();
      forall i | 0 <= i < |lower| ensures lower[i] != 'f' {
        LowerCharIs(name[i], 'f');
      }
      NotContainsWithoutFirstChar(lower, "fe");
    }
  }

  lemma NoOtherRowMatchesFe(k: nat)
    requires k < |ElementData| && k != 21
    ensures !Matches("fe", ElementData[k])
  {
    NoOtherNameContainsFe(k);
    var sym := ElementData[k].symbol;
    SymbolShapes();
    LowerCharIs(sym[0], 'f');
    assert |sym| == 1 || sym[0] != 'F';
    assert |Lower(sym)| != 2 || Lower(sym)[0] != 'f';
    assert NatToString(ElementData[k].atomicNumber) != "fe" by {
      assert IsDigit(NatToString(ElementData[k].atomicNumber)[0]);
    }
  }

  /** Typing "fe" lists iron alone, found through its symbol. */
  lemma SearchFe(query: string)
    requires query == "fe"
    ensures Search(query) == [Iron]
  {
    assert Lower(query) == "fe";
    forall k | 0 <= k < |ElementData| && k != 21 ensures !Matches("fe", ElementData[k]) {
      NoOtherRowMatchesFe(k);
    }
    FilterSingle(ElementData, (e: Element) => Matches("fe", e), 21);
  }

  lemma NameLacks26(k: nat)
    requires k < |ElementData|
    ensures !Contains(Lower(ElementData[k].name), "26")
  {
    var name := ElementData[k].name;
    NamesLackDigits();
    forall i | 0 <= i < |Lower(name)| ensures Lower(name)[i] != '2' {
      LowerCharDigit(name[i]);
    }
    NotContainsWithoutFirstChar(Lower(name), "26");
  }

  lemma NumberIs26OnlyForIron(k: nat)
    requires k < |ElementData| && k != 21
    ensures NatToString(ElementData[k].atomicNumber) != "26"
  {
    AtomicNumbersIncrease();
    assert ElementData[k].atomicNumber != 26 by {
      assert AtomicNumbers(ElementData)[21] == 26;
      assert AtomicNumbers(ElementData)[k] == ElementData[k].atomicNumber;
    }
    if NatToString(ElementData[k].atomicNumber) == "26" {
      assert NatToString(26) == "26";
      NatToStringInjective(ElementData[k].atomicNumber, 26);
    }
  }

  lemma NoOtherRowMatches26(k: nat)
    requires k < |ElementData| && k != 21
    ensures !Matches("26", ElementData[k])
  {
    NameLacks26(k);
    NumberIs26OnlyForIron(k);
    var sym := ElementData[k].symbol;
    SymbolShapes();
    LowerCharDigit(sym[0]);
    assert Lower(sym)[0] != '2';
  }

  /** Typing "26" lists iron alone, found through its atomic number. */
  lemma Search26()
    ensures Search("26") == [Iron]
  {
    assert Lower("26") == "26";
    assert NatToString(26) == "26";
    forall k | 0 <= k < |ElementData| && k != 21 ensures !Matches("26", ElementData[k]) {
      NoOtherRowMatches26(k);
    }
    FilterSingle(ElementData, (e: Element) => Matches("26", e), 21);
  }

  lemma KelvinSignLowersToK()
    ensures Lower([KelvinSign]) == "k"
  {
    assert Lower([KelvinSign])[0] == LowerChar(KelvinSign);
  }

  lemma PotassiumMatchesK(q: string, potassium: Element)
    requires q == "k" && potassium == ElementData[18]
    ensures Matches(q, potassium)
  {
    assert Lower(potassium.symbol)[0] == LowerChar('K');
  }

  /**
   * The Kelvin sign lower-cases to "k", so typing it lists what typing "K"
   * lists, Potassium among it. (The queries are parameters so that the
   * search is not unfolded over the literal table.)
   */
  lemma KelvinSignSearchesLikeK(kelvin: string, capitalK: string)
    requires kelvin == [KelvinSign] && capitalK == "K"
    ensures Search(kelvin) == Search(capitalK)
    ensures ElementData[18] in Search(kelvin)
  {
    KelvinSignLowersToK();
    assert Lower(capitalK)[0] == LowerChar('K');
    SearchIgnoresCase(kelvin, capitalK);
    PotassiumMatchesK(Lower(kelvin), ElementData[18]);
  }

  /** Typing "zzz" lists nothing. */
  lemma SearchZzz()
    ensures Search("zzz") == []
  {
    assert Lower("zzz") == "zzz";
    forall k | 0 <= k < |ElementData| ensures !Matches("zzz", ElementData[k]) {
      var e := ElementData[k];
      NamesLackZ();
      forall i | 0 <= i < |Lower(e.name)| ensures Lower(e.name)[i] != 'z' {
        LowerCharIs(e.name[i], 'z');
      }
      NotContainsWithoutFirstChar(Lower(e.name), "zzz");
      SymbolShapes();
    }
    FilterDropsAll(ElementData, (e: Element) => Matches("zzz", e));
  }

  // ---------------------------------------------------------------------
  // Category colours

  const DefaultColor := "#cccccc"

  /** The eight categories the element screen knows, with their colours. */
  const CategoryPalette: map<string, string> := map[
    "alkali_metal" := "#f44336",
    "alkaline_earth_metal" := "#ff9800",
    "transition_metal" := "#4caf50",
    "post_transition_metal" := "#03a9f4",
    "metalloid" := "#ffeb3b",
    "nonmetal" := "#9e9e9e",
    "halogen" := "#e91e63",
    "noble_gas" := "#9c27b0"
  ]

  /**
   * The colour of a category. It is defined for every string: a known
   * category gets its palette colour and anything else the default grey,
   * which no known category uses.
   */
  function CategoryColor(category: string): (color: string)
    ensures category in CategoryPalette ==> color == CategoryPalette[category]
    ensures category !in CategoryPalette ==> color == DefaultColor
    ensures color == DefaultColor <==> category !in CategoryPalette
  {
    match category
    case "alkali_metal" => "#f44336"
    case "alkaline_earth_metal" => "#ff9800"
    case "transition_metal" => "#4caf50"
    case "post_transition_metal" => "#03a9f4"
    case "metalloid" => "#ffeb3b"
    case "nonmetal" => "#9e9e9e"
    case "halogen" => "#e91e63"
    case "noble_gas" => "#9c27b0"
    case _ => DefaultColor
  }

  /** Every row of the table is drawn in its own category colour, never the default. */
  lemma TableUsesKnownCategories()
    ensures forall e :: e in ElementData ==> CategoryColor(e.category) != DefaultColor
  {
    forall k | 0 <= k < |ElementData| ensures ElementData[k].category in CategoryPalette {
      KnownCategory(k);
    }
  }

  lemma KnownCategory(k: nat)
    requires k < |ElementData|
    ensures ElementData[k].category in CategoryPalette
  {
    var c := ElementData[k].category;
    assert c == "nonmetal" || c == "noble_gas" || c == "alkali_metal" || c == "alkaline_earth_metal"
      || c == "metalloid" || c == "halogen" || c == "post_transition_metal" || c == "transition_metal";
  }

  // ---------------------------------------------------------------------
  // Selection

  /**
   * The auto-select rule, run when the result list changes: a list of
   * exactly one element selects it, unless the selection already has that
   * name; otherwise the selection stays.
   */
  function AutoSelect(results: seq<Element>, selected: Option<Element>): (r: Option<Element>)
    ensures |results| == 1 ==> r.Some? && r.value.name == results[0].name
    ensures |results| == 1 && (selected.None? || selected.value.name != results[0].name) ==> r == Some(results[0])
    ensures |results| != 1 || (selected.Some? && selected.value.name == results[0].name) ==> r == selected
  {
    if |results| == 1 && (selected.None? || results[0].name != selected.value.name) then Some(results[0])
    else selected
  }

  /** A one-row result opens that row unless a card of the same name is already open. */
  lemma AutoSelectSingle(results: seq<Element>, e: Element, selected: Option<Element>)
    requires results == [e]
    requires selected.None? || selected.value.name != e.name
    ensures AutoSelect(results, selected) == Some(e)
  {
  }

  /** Running the rule a second time on the same list changes nothing. */
  lemma AutoSelectIdempotent(results: seq<Element>, selected: Option<Element>)
    ensures AutoSelect(results, AutoSelect(results, selected)) == AutoSelect(results, selected)
  {
  }

  /** The state of the element screen: the search box and the selected element. */
  class ElementsScreen {
    var searchText: string
    var selected: Option<Element>

    /** The screen opens with an empty search and nothing selected. */
    constructor ()
      ensures searchText == "" && selected == None
    {
      searchText := "";
      selected := None;
    }

    /** The list the screen shows. */
    function Results(): seq<Element>
      reads this
    {
      Search(searchText)
    }

    /**
     * The search box changes (typing or the clear button). When the text
     * actually changes the result list is recomputed and the auto-select
     * rule runs on it.
     */
    method SetSearchText(text: string)
      modifies this
      ensures searchText == text
      ensures text == old(searchText) ==> selected == old(selected)
      ensures text != old(searchText) ==> selected == AutoSelect(Search(text), old(selected))
    {
      if text != searchText {
        searchText := text;
        var results := Search(text);
        if |results| == 1 && (selected.None? || results[0].name != selected.value.name) {
          selected := Some(results[0]);
        }
      }
    }

    /** A row of the list is tapped. */
    method SelectElement(element: Element)
      modifies this
      ensures selected == Some(element) && searchText == old(searchText)
    {
      selected := Some(element);
    }
  }

  /** On a screen with nothing selected, the query "fe" opens iron's details. */
  lemma FeOpensIron(query: string)
    requires query == "fe"
    ensures AutoSelect(Search(query), None) == Some(Iron)
  {
    SearchFe(query);
    AutoSelectSingle(Search(query), Iron, None);
  }

  /** Typing "fe" into a fresh screen opens iron's details. */
  method TypeFeSelectsIron(query: string) returns (screen: ElementsScreen)
    requires query == "fe"
    ensures screen.searchText == query && screen.selected == Some(Iron)
  {
    screen := new ElementsScreen();
    FeOpensIron(query);
    screen.SetSearchText(query);
  }
}
