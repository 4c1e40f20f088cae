/** The navigation bar: its five section links, the language switch, and the
    mobile menu flag that its button flips and a link click closes. */
module Navbar {

  const English := "en"
  const Arabic := "ar"

  predicate IsLanguage(language: string) {
    language == English || language == Arabic
  }

  /** The value `toggleLanguage` hands to the language setter. */
  function ToggledLanguage(language: string): (r: string)
    ensures IsLanguage(r)
    ensures r == Arabic <==> language == English
  {
    if language == English then Arabic else English
  }

  /** On the two languages the switch swaps them, so two switches restore the first. */
  lemma ToggleSwapsLanguages(language: string)
    requires IsLanguage(language)
    ensures ToggledLanguage(language) != language
    ensures ToggledLanguage(ToggledLanguage(language)) == language
  {}

  /** Any other value is sent to English, so a second switch does not bring it back. */
  lemma ToggleNormalisesOthers(language: string)
    requires !IsLanguage(language)
    ensures ToggledLanguage(language) == English
    ensures ToggledLanguage(ToggledLanguage(language)) == Arabic
  {}

  datatype NavItem = NavItem(key: string, href: string)

  /** `{ key, href: '#' + key }`: the link targets the element whose id is the key. */
  function Link(key: string): (item: NavItem)
    ensures item.key == key && |item.href| == |key| + 1
    ensures item.href[0] == '#' && item.href[1..] == key
  {
    NavItem(key, "#" + key)
  }

  /** `navItems`: the five sections, each linked by `#` and its key. */
  function NavItems(): (items: seq<NavItem>)
    ensures |items| == 5
    ensures forall i :: 0 <= i < |items| ==> items[i].href == "#" + items[i].key
    ensures items[0].key == "home" && items[1].key == "about" && items[2].key == "values"
      && items[3].key == "services" && items[4].key == "clients"
  {
    [Link("home"), Link("about"), Link("values"), Link("services"), Link("clients")]
  }

  /** The navbar's view of the language and its own `isMenuOpen` state. */
  class NavbarState {
    var language: string
    var isMenuOpen: bool

    constructor (language: string)
      ensures this.language == language && !isMenuOpen
    {
      this.language := language;
      isMenuOpen := false;
    }

    method ToggleLanguage()
      modifies this
      ensures language == ToggledLanguage(old(language))
      ensures isMenuOpen == old(isMenuOpen)
      ensures IsLanguage(language)
    {
      language := ToggledLanguage(language);
    }

    /** The mobile menu button. */
    method ToggleMenu()
      modifies this
      ensures isMenuOpen == !old(isMenuOpen) && language == old(language)
    {
      isMenuOpen := !isMenuOpen;
    }

    /** A link click; `elementFound` is whether `document.querySelector(href)`
        found the section, and `scrolled` whether it was scrolled into view. */
    method ScrollToSection(href: string, elementFound: bool) returns (scrolled: bool)
      modifies this
      ensures !isMenuOpen && language == old(language)
      ensures scrolled == elementFound
    {
      scrolled := false;
      if elementFound {
        scrolled := true;
      }
      isMenuOpen := false;
    }
  }

  /** Two presses of the menu button, or of the language switch from a
      supported language, restore the navbar. */
  method PressTwice(n: NavbarState)
    requires IsLanguage(n.language)
    modifies n
    ensures n.language == old(n.language) && n.isMenuOpen == old(n.isMenuOpen)
  {
    n.ToggleMenu();
    n.ToggleMenu();
    n.ToggleLanguage();
    n.ToggleLanguage();
    ToggleSwapsLanguages(old(n.language));
  }

  /** Opening the menu and following a link closes it, whether or not the link's
      section exists. */
  method OpenThenFollow(n: NavbarState, item: NavItem, elementFound: bool)
    modifies n
    ensures !n.isMenuOpen && n.language == old(n.language)
  {
    if !n.isMenuOpen {
      n.ToggleMenu();
    }
    var scrolled := n.ScrollToSection(item.href, elementFound);
  }
}
