/** The application shell: the sidebar's navigation table, the rule that marks
    the current item, and the avatar initials in the footer. */
module AppLayout {
  import opened Wrappers
  import Text
  import ProfilePage

  /** One sidebar entry: its label and the route it links to. */
  datatype NavItem = NavItem(name: string, href: string)

  /** The sidebar's `navigation` table, in display order. */
  const Navigation: seq<NavItem> := [
    NavItem("Dashboard", "/"),
    NavItem("Palavras-Chave", "/palavras-chave"),
    NavItem("Configurações", "/configuracoes")
  ]

  /** The route of the profile page, reached from the footer menu. */
  const ProfileRoute := "/perfil"

  /** An item is highlighted exactly when the current path is its route. */
  predicate IsActive(pathname: string, item: NavItem) {
    pathname == item.href
  }

  /** The highlighted items, in table order. */
  function ActiveItems(pathname: string, items: seq<NavItem>): (r: seq<NavItem>)
    ensures forall it :: it in r <==> it in items && IsActive(pathname, it)
    ensures (forall i :: 0 <= i < |items| ==> !IsActive(pathname, items[i])) ==> r == []
  {
    if items == [] then []
    else
      assert items == [items[0]] + items[1..];
      (if IsActive(pathname, items[0]) then [items[0]] else []) + ActiveItems(pathname, items[1..])
  }

  predicate HrefsDistinct(items: seq<NavItem>) {
    forall i, j :: 0 <= i < j < |items| ==> items[i].href != items[j].href
  }

  lemma DistinctTail(items: seq<NavItem>)
    requires items != [] && HrefsDistinct(items)
    ensures HrefsDistinct(items[1..])
  {
    var rest := items[1..];
    forall i, j | 0 <= i < j < |rest| ensures rest[i].href != rest[j].href {
      assert rest[i] == items[i + 1] && rest[j] == items[j + 1];
    }
  }

  /** With distinct routes, at most one item is highlighted. */
  lemma {:induction false} AtMostOneActive(pathname: string, items: seq<NavItem>)
    requires HrefsDistinct(items)
    ensures |ActiveItems(pathname, items)| <= 1
  {
    if items != [] {
      var rest := items[1..];
      DistinctTail(items);
      AtMostOneActive(pathname, rest);
      if IsActive(pathname, items[0]) {
        forall j | 0 <= j < |rest| ensures !IsActive(pathname, rest[j]) {
          assert rest[j] == items[j + 1];
        }
      }
    }
  }

  /** With distinct routes, the route of an item highlights that item alone. */
  lemma {:induction false} OwnRouteHighlightsOnlyItself(items: seq<NavItem>, i: nat)
    requires HrefsDistinct(items) && i < |items|
    ensures ActiveItems(items[i].href, items) == [items[i]]
  {
    var rest := items[1..];
    DistinctTail(items);
    var p := items[i].href;
    if i == 0 {
      forall j | 0 <= j < |rest| ensures !IsActive(p, rest[j]) {
        assert rest[j] == items[j + 1];
      }
      assert ActiveItems(p, rest) == [];
      assert ActiveItems(p, items) == [items[0]] + ActiveItems(p, rest);
    } else {
      assert rest[i - 1] == items[i];
      assert !IsActive(p, items[0]);
      OwnRouteHighlightsOnlyItself(rest, i - 1);
      assert ActiveItems(p, items) == [] + ActiveItems(p, rest);
    }
  }

  /** The table's routes are distinct. */
  lemma NavigationHrefsDistinct()
    ensures HrefsDistinct(Navigation)
  {
    assert |Navigation[0].href| == 1;
    assert |Navigation[1].href| == 15;
    assert |Navigation[2].href| == 14;
  }

  /** On any path at most one item of the sidebar is highlighted, each route
      of the table highlights its own item alone, and the profile route
      highlights none. */
  lemma NavigationHighlighting(pathname: string, i: nat)
    requires i < |Navigation|
    ensures |ActiveItems(pathname, Navigation)| <= 1
    ensures ActiveItems(Navigation[i].href, Navigation) == [Navigation[i]]
    ensures ActiveItems(ProfileRoute, Navigation) == []
  {
    NavigationHrefsDistinct();
    AtMostOneActive(pathname, Navigation);
    OwnRouteHighlightsOnlyItself(Navigation, i);
    assert |ProfileRoute| == 7;
  }

  /** The footer's `getUserInitials`: the e-mail's first character upper-cased,
      or "U" without an e-mail; always a single character. */
  function Initials(email: Option<string>): (r: string)
    ensures |r| == 1
    ensures email.None? || email.value == [] ==> r == "U"
    ensures email.Some? && email.value != [] ==> r == [Text.UpperChar(email.value[0])]
  {
    if email.None? || email.value == [] then "U"
    else Text.ToUpper(Text.CharAt(email.value, 0))
  }

  /** The footer shows what the profile page shows for a user without a full
      name. */
  lemma InitialsMatchProfileWithoutName(email: Option<string>)
    ensures Initials(email) == ProfilePage.InitialsAsWritten("", email)
    ensures Initials(email) == ProfilePage.Initials("", email)
  {
    ProfilePage.InitialsAgreeOnWellFormedNames("", email);
  }
}
