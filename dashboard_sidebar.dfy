/** The dashboard's side navigation: five tabs, two of which carry a count
    badge, and the highlighting of the active tab. */
module DashboardSidebar {
  import opened Wrappers
  import opened Text

  datatype Tab = Overview | Guests | Requests | Messages | Entourage

  /** One navigation entry; `badge` is None where the source has `null`. */
  datatype NavItem = NavItem(id: Tab, caption: string, badge: Option<int>)

  /** The `navItems` list, in display order. */
  function NavItems(guestRequestCount: int, messageCount: int): (items: seq<NavItem>)
    ensures |items| == 5
    ensures forall i :: 0 <= i < |items| ==>
      (items[i].badge.Some? <==> items[i].id == Requests || items[i].id == Messages)
    ensures forall i :: 0 <= i < |items| && items[i].id == Requests ==> items[i].badge == Some(guestRequestCount)
    ensures forall i :: 0 <= i < |items| && items[i].id == Messages ==> items[i].badge == Some(messageCount)
  {
    [ NavItem(Overview, "Dashboard", None),
      NavItem(Guests, "Guest List", None),
      NavItem(Requests, "Join Requests", Some(guestRequestCount)),
      NavItem(Messages, "Guest Messages", Some(messageCount)),
      NavItem(Entourage, "Entourage & Sponsors", None) ]
  }

  /** The ids the entries carry. */
  function Ids(items: seq<NavItem>): set<Tab> {
    set i | 0 <= i < |items| :: items[i].id
  }

  /** The ids of the entries are pairwise distinct, and every tab has one. */
  lemma NavItemIds(guestRequestCount: int, messageCount: int)
    ensures var items := NavItems(guestRequestCount, messageCount);
      && (forall i, j :: 0 <= i < j < |items| ==> items[i].id != items[j].id)
      && (forall t: Tab :: t in Ids(items))
  {
    var items := NavItems(guestRequestCount, messageCount);
    forall t: Tab ensures t in Ids(items) {
      match t
      case Overview => assert items[0].id == t;
      case Guests => assert items[1].id == t;
      case Requests => assert items[2].id == t;
      case Messages => assert items[3].id == t;
      case Entourage => assert items[4].id == t;
    }
  }

  /** `activeTab === item.id`. */
  predicate IsActive(activeTab: Tab, item: NavItem) {
    activeTab == item.id
  }

  /** Whatever the active tab, exactly one entry is highlighted. */
  lemma ExactlyOneActive(activeTab: Tab, guestRequestCount: int, messageCount: int)
    ensures var items := NavItems(guestRequestCount, messageCount);
      && (exists i :: 0 <= i < |items| && IsActive(activeTab, items[i]))
      && (forall i, j ::
            0 <= i < |items| && 0 <= j < |items| && IsActive(activeTab, items[i]) && IsActive(activeTab, items[j])
            ==> i == j)
  {
    NavItemIds(guestRequestCount, messageCount);
    var items := NavItems(guestRequestCount, messageCount);
    assert activeTab in Ids(items);
  }

  /** Clicking an entry reports that entry's id, which then makes it the
      only highlighted entry. */
  function OnClick(item: NavItem): (tab: Tab)
    ensures IsActive(tab, item)
  {
    item.id
  }

  lemma ClickHighlightsOnlyThat(guestRequestCount: int, messageCount: int, i: nat)
    requires i < 5
    ensures var items := NavItems(guestRequestCount, messageCount);
      forall j :: 0 <= j < |items| ==> (IsActive(OnClick(items[i]), items[j]) <==> j == i)
  {
    NavItemIds(guestRequestCount, messageCount);
  }

  /** The badge text of an entry: shown only for a non-null count above 0,
      as "99+" above 99 and as the number otherwise. */
  function BadgeText(badge: Option<int>): (text: Option<string>)
    ensures text.Some? <==> badge.Some? && badge.value > 0
    ensures text.Some? && badge.value > 99 ==> text.value == "99+"
    ensures text.Some? && badge.value <= 99 ==>
      text.value == NatToString(badge.value) && 1 <= |text.value| <= 2
  {
    if badge.Some? && badge.value > 0 then
      Some(if badge.value > 99 then "99+" else IntToString(badge.value))
    else None
  }

  /** The two renderings of a shown badge never coincide: a count up to 99
      is never shown as "99+". */
  lemma BadgeCapped(n: int)
    requires 0 < n <= 99
    ensures BadgeText(Some(n)) != Some("99+")
  {
  }

  /** Only the request and message entries can show a badge. */
  lemma OnlyCountsShowBadges(guestRequestCount: int, messageCount: int, i: nat)
    requires i < 5
    ensures var item := NavItems(guestRequestCount, messageCount)[i];
      BadgeText(item.badge).Some? ==>
        (item.id == Requests && guestRequestCount > 0) || (item.id == Messages && messageCount > 0)
  {
  }
}
