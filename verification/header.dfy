/** The site header (components/Header.tsx): the navigation items, the
    hotline links, the theme it applies and the mobile menu. */
module Header {
  import opened Wrappers
  import opened Text
  import ContactLinks

  datatype NavItem = NavItem(href: string, title: string)

  const BlogItem := NavItem("/blog", "Blog")

  /** The items shown whatever the settings say, in order. */
  const FixedItems := [
    NavItem("/", "Trang chủ"),
    NavItem("/san-pham", "Sản phẩm"),
    NavItem("/dich-vu", "Dịch vụ"),
    NavItem("/bao-gia", "Báo giá"),
    NavItem("/lien-he", "Liên hệ")]

  /** `navItems`: the fixed items, with Blog after 'Dịch vụ' unless
      `blogEnabled` is exactly `false` (`None` is undefined). */
  function NavItems(blogEnabled: Option<bool>): (r: seq<NavItem>)
    ensures BlogItem in r <==> blogEnabled != Some(false)
    ensures blogEnabled == Some(false) ==> r == FixedItems
    ensures blogEnabled != Some(false) ==> r == FixedItems[..3] + [BlogItem] + FixedItems[3..]
  {
    FixedItems[..3] + (if blogEnabled != Some(false) then [BlogItem] else []) + FixedItems[3..]
  }

  /** Whatever the setting, the other five items appear in their fixed
      order: dropping Blog leaves exactly them. */
  lemma FixedItemsAlwaysShown(blogEnabled: Option<bool>)
    ensures |NavItems(blogEnabled)| == 5 || |NavItems(blogEnabled)| == 6
    ensures forall i :: 0 <= i < 5 ==> FixedItems[i] in NavItems(blogEnabled)
    ensures BlogItem !in FixedItems
  {
  }

  /** The hotline: the digits of the configured phone, or the default. */
  function HotlineNumber(phone: string): (r: string)
    ensures AllDigits(r) && r != ""
    ensures Digits(phone) == "" ==> r == ContactLinks.DefaultDigits
    ensures Digits(phone) != "" ==> r == Digits(phone)
  {
    ContactLinks.PhoneNumber(phone)
  }

  /** The zalo link beside it. */
  function HotlineZalo(phone: string): (r: string)
    ensures StartsWith(r, ContactLinks.ZaloBase) && r[|ContactLinks.ZaloBase|..] == HotlineNumber(phone)
  {
    ContactLinks.ZaloLink(phone)
  }

  /** The `data-theme` applied for the stored theme: 'auto' follows the
      system preference; any other value, even one the settings route would
      not accept, is applied as it is (an empty value as 'light'). */
  function DataTheme(theme: string, prefersDark: bool): (r: string)
    ensures theme == "auto" ==> (r == "dark" <==> prefersDark) && (r == "light" <==> !prefersDark)
    ensures theme != "auto" && theme != "" ==> r == theme
    ensures theme == "" ==> r == "light"
  {
    var t := if theme != "" then theme else "light";
    if t == "auto" then (if prefersDark then "dark" else "light") else t
  }

  /** A theme the settings route stores yields a light or dark page. */
  lemma StoredThemeApplies(theme: string, prefersDark: bool)
    requires theme == "light" || theme == "dark" || theme == "auto"
    ensures DataTheme(theme, prefersDark) == "light" || DataTheme(theme, prefersDark) == "dark"
  {
  }

  /** The mobile menu: the button flips it, choosing an item or the hotline
      closes it. */
  datatype MenuEvent = ToggleButton | ItemClicked | HotlineClicked

  function Menu(open: bool, e: MenuEvent): (r: bool)
    ensures e == ToggleButton ==> r == !open
    ensures e != ToggleButton ==> !r
  {
    match e
    case ToggleButton => !open
    case _ => false
  }

  /** Pressing the button twice restores the menu; a click on an item always
      leaves it closed, so opening after that shows it again. */
  lemma MenuToggleTwice(open: bool)
    ensures Menu(Menu(open, ToggleButton), ToggleButton) == open
    ensures Menu(Menu(open, ItemClicked), ToggleButton)
  {
  }
}
