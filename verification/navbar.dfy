/** The navigation bar's page title, looked up from the current path, and
    its icon lookup by name. */
module Navbar {
  import opened Js

  /** An entry of the side menu. */
  datatype Product = Product(id: nat, icon: string, name: string, to: string)

  const Products: seq<Product> := [
    Product(1, "VillaOutlinedIcon", "Dashboard", "/home"),
    Product(2, "EducationIcon", "Courses", "/education"),
    Product(3, "InfoIcon", "About", "/about")
  ]

  /** `products.find(p => p.to === path)` */
  function FindProduct(ps: seq<Product>, path: string): (r: Option<nat>)
    ensures r.None? <==> forall i :: 0 <= i < |ps| ==> ps[i].to != path
    ensures r.Some? ==> r.value < |ps| && ps[r.value].to == path
    ensures r.Some? ==> forall j :: 0 <= j < r.value ==> ps[j].to != path
    decreases |ps|
  {
    if |ps| == 0 then None
    else if ps[0].to == path then Some(0)
    else
      var r := FindProduct(ps[1..], path);
      if r.Some? then Some(r.value + 1) else None
  }

  /** `getPageName`: the menu entry first, then fixed fallbacks. */
  function PageName(path: string): (r: string)
    ensures r in {"Dashboard", "Courses", "About", "Page"}
  {
    EducationInMenu();
    var p := FindProduct(Products, path);
    if p.Some? then Products[p.value].name
    else if path == "/home" || path == "/" then "Dashboard"
    else if path == "/about" then "About"
    else if path == "/education" then assert false; "Learning"
    else "Page"
  }

  /** "/education" is a menu path, so the lookup finds it first. */
  lemma EducationInMenu()
    ensures FindProduct(Products, "/education").Some?
  {
    assert Products[1].to == "/education";
  }

  /** The menu entries go to different paths. */
  lemma ProductPathsDistinct()
    ensures forall i, j :: 0 <= i < j < |Products| ==> Products[i].to != Products[j].to
  {
  }

  /** A path of the menu is titled with that entry's name. */
  lemma {:induction false} ProductPageName(i: nat)
    requires i < |Products|
    ensures PageName(Products[i].to) == Products[i].name
  {
    ProductPathsDistinct();
    var p := FindProduct(Products, Products[i].to);
    assert p.Some?;
    assert p.value == i;
  }

  /** The root path is the dashboard. */
  lemma RootIsDashboard()
    ensures PageName("/") == "Dashboard"
  {
    assert FindProduct(Products, "/").None? by {
      assert forall i :: 0 <= i < |Products| ==> Products[i].to != "/";
    }
  }

  /** "/education" is found in the menu first, so the "Learning" fallback
      is never chosen. */
  lemma EducationIsCourses()
    ensures PageName("/education") == "Courses"
  {
    ProductPageName(1);
  }

  /** Any path outside the menu and the root is titled "Page". */
  lemma UnknownPathIsPage(path: string)
    requires path !in {"/home", "/education", "/about", "/"}
    ensures PageName(path) == "Page"
  {
    assert forall i :: 0 <= i < |Products| ==> Products[i].to != path;
  }

  /** The icons `DynamicIcon` knows. */
  datatype Icon =
    | InboxIcon | MailIcon | LoginIcon | LogoutIcon
    | NotificationsIcon | EducationIcon | InfoIcon | VillaOutlinedIcon

  function IconName(i: Icon): string {
    match i
    case InboxIcon => "InboxIcon"
    case MailIcon => "MailIcon"
    case LoginIcon => "LoginIcon"
    case LogoutIcon => "LogoutIcon"
    case NotificationsIcon => "NotificationsIcon"
    case EducationIcon => "EducationIcon"
    case InfoIcon => "InfoIcon"
    case VillaOutlinedIcon => "VillaOutlinedIcon"
  }

  /** `iconMap[name]`; None renders nothing. */
  function IconFor(name: string): (r: Option<Icon>)
    ensures r.None? ==> forall i: Icon :: IconName(i) != name
    ensures r.Some? ==> IconName(r.value) == name
  {
    match name
    case "InboxIcon" => Some(InboxIcon)
    case "MailIcon" => Some(MailIcon)
    case "LoginIcon" => Some(LoginIcon)
    case "LogoutIcon" => Some(LogoutIcon)
    case "NotificationsIcon" => Some(NotificationsIcon)
    case "EducationIcon" => Some(EducationIcon)
    case "InfoIcon" => Some(InfoIcon)
    case "VillaOutlinedIcon" => Some(VillaOutlinedIcon)
    case _ => None
  }

  /** Looking up an icon's own name finds that icon. */
  lemma IconRoundTrip(i: Icon)
    ensures IconFor(IconName(i)) == Some(i)
  {
  }

  /** Every menu entry has an icon that renders. */
  lemma ProductIconsKnown()
    ensures forall i :: 0 <= i < |Products| ==> IconFor(Products[i].icon).Some?
  {
  }
}
