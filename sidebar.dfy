/** The sidebar's navigation: the five entries, each open to some roles, filtered by the
    signed-in user's role, which defaults to `student`. */
module Sidebar {
  import opened Common

  datatype NavItem = NavItem(title: string, href: string, allowedRoles: seq<string>)

  const AllItems: seq<NavItem> := [
    NavItem("Progress", "/dashboard", ["student", "tutor"]),
    NavItem("Book a Session", "/book", ["student"]),
    NavItem("Tutors", "/tutor", ["student"]),
    NavItem("Profile", "/profile", ["student", "tutor"]),
    NavItem("Calendar", "/calendar", ["tutor"])
  ]

  /** `userDoc?.role || 'student'`. */
  function EffectiveRole(role: Option<string>): (r: string)
    ensures r != ""
    ensures !Present(role) ==> r == "student"
    ensures Present(role) ==> r == role.value
  {
    if Present(role) then role.value else "student"
  }

  function AllowedFor(role: string): NavItem -> bool {
    (item: NavItem) => role in item.allowedRoles
  }

  /** The rendered entries: the entries open to the role, in their declared order. */
  function NavItems(role: Option<string>): (r: seq<NavItem>)
    ensures forall i :: 0 <= i < |r| ==> r[i] in AllItems && EffectiveRole(role) in r[i].allowedRoles
    ensures forall i :: 0 <= i < |AllItems| && EffectiveRole(role) in AllItems[i].allowedRoles ==> AllItems[i] in r
  {
    var items := Filter(AllItems, AllowedFor(EffectiveRole(role)));
    FilteredByRole(EffectiveRole(role), items);
    items
  }

  lemma FilteredByRole(role: string, items: seq<NavItem>)
    requires items == Filter(AllItems, AllowedFor(role))
    ensures forall i :: 0 <= i < |items| ==> items[i] in AllItems && role in items[i].allowedRoles
    ensures forall i :: 0 <= i < |AllItems| && role in AllItems[i].allowedRoles ==> AllItems[i] in items
  {
    FilterMembers(AllItems, AllowedFor(role));
    assert forall i :: 0 <= i < |items| ==> AllowedFor(role)(items[i]);
    assert forall i :: 0 <= i < |AllItems| && role in AllItems[i].allowedRoles ==> AllowedFor(role)(AllItems[i]);
  }

  function Titles(items: seq<NavItem>): (titles: seq<string>)
    ensures |titles| == |items|
  {
    seq(|items|, i requires 0 <= i < |items| => items[i].title)
  }

  lemma StudentAccess()
    ensures var p, s := AllowedFor("student"), AllItems;
      p(s[0]) && p(s[1]) && p(s[2]) && p(s[3]) && !p(s[4])
  {
  }

  /** The entries a student, or a user without a role, is offered: all but Calendar. */
  lemma StudentItems(role: Option<string>)
    requires !Present(role) || role.value == "student"
    ensures NavItems(role) == [AllItems[0], AllItems[1], AllItems[2], AllItems[3]]
  {
    assert EffectiveRole(role) == "student";
    var p := AllowedFor("student");
    var s := AllItems;
    StudentAccess();
    FilterDrop(s, 4, p);
    FilterDrop(s, 3, p);
    FilterDrop(s, 2, p);
    FilterDrop(s, 1, p);
    FilterDrop(s, 0, p);
  }

  lemma StudentTitles(items: seq<NavItem>)
    requires items == [AllItems[0], AllItems[1], AllItems[2], AllItems[3]]
    ensures Titles(items) == ["Progress", "Book a Session", "Tutors", "Profile"]
  {
  }

  /** A student, and a user without a role, sees Progress, Book a Session, Tutors and Profile. */
  lemma StudentNavigation(role: Option<string>)
    requires !Present(role) || role.value == "student"
    ensures Titles(NavItems(role)) == ["Progress", "Book a Session", "Tutors", "Profile"]
  {
    StudentItems(role);
    StudentTitles(NavItems(role));
  }

  lemma TutorAccess()
    ensures var p, s := AllowedFor("tutor"), AllItems;
      p(s[0]) && !p(s[1]) && !p(s[2]) && p(s[3]) && p(s[4])
  {
  }

  /** The entries open to tutors: Progress, Profile and Calendar. */
  lemma TutorItems()
    ensures Filter(AllItems, AllowedFor("tutor")) == [AllItems[0], AllItems[3], AllItems[4]]
  {
    var p := AllowedFor("tutor");
    var s := AllItems;
    TutorAccess();
    FilterDrop(s, 4, p);
    FilterDrop(s, 3, p);
    FilterDrop(s, 2, p);
    FilterDrop(s, 1, p);
    FilterDrop(s, 0, p);
  }

  lemma TutorTitles(items: seq<NavItem>)
    requires items == [AllItems[0], AllItems[3], AllItems[4]]
    ensures Titles(items) == ["Progress", "Profile", "Calendar"]
  {
  }

  /** A tutor sees Progress, Profile and Calendar. */
  lemma TutorNavigation()
    ensures Titles(NavItems(Some("tutor"))) == ["Progress", "Profile", "Calendar"]
  {
    assert EffectiveRole(Some("tutor")) == "tutor";
    TutorItems();
    TutorTitles(NavItems(Some("tutor")));
  }

  /** Any other role sees no entry at all. */
  lemma OtherRoleNavigation(role: string)
    requires role != "" && role != "student" && role != "tutor"
    ensures NavItems(Some(role)) == []
  {
    FilterNone(AllItems, AllowedFor(role));
  }
}
