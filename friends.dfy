/**
 * The friends page: the list of friends with, for each, a menu that at most
 * one friend has open at a time (`activeMenu` holds that friend's id).
 */
module Friends {

  import opened Common

  /** A friend as the page lists it. */
  datatype Friend = Friend(
    id: string, name: string, email: string,
    avatarUrl: Option<string>, customAvatarUrl: Option<string>)

  // ------------------------------------------------------------------ menu

  /** The menu of friend `id` is the one open. */
  predicate MenuOpen(activeMenu: Option<string>, id: string) {
    activeMenu == Some(id)
  }

  /** `activeMenu === id ? null : id`: the open menu's button closes it, any other opens that one. */
  function Toggled(activeMenu: Option<string>, id: string): (r: Option<string>)
    ensures MenuOpen(r, id) <==> !MenuOpen(activeMenu, id)
    ensures forall other :: other != id ==> !MenuOpen(r, other)
  {
    if activeMenu == Some(id) then None else Some(id)
  }

  /** Pressing the same button twice leaves that menu as it was and every other menu closed. */
  lemma ToggleTwice(activeMenu: Option<string>, id: string)
    ensures Toggled(Toggled(activeMenu, id), id) == if MenuOpen(activeMenu, id) then activeMenu else None
  {
  }

  /**
   * A click on the backdrop. The backdrop is rendered only while `activeMenu`
   * is truthy, so a menu opened for a friend with an empty id is not closed
   * by it.
   */
  function ClickedOutside(activeMenu: Option<string>): (r: Option<string>)
    ensures r.None? || r == Some("")
    ensures Truthy(activeMenu) ==> r.None?
    ensures !Truthy(activeMenu) ==> r == activeMenu
  {
    if Truthy(activeMenu) then None else activeMenu
  }

  // -------------------------------------------------------------- the page

  /** The page's menu state. */
  class FriendsPage {
    var friends: seq<Friend>
    var activeMenu: Option<string>

    /** The page as first rendered: no friends, no menu open. */
    constructor ()
      ensures friends == [] && activeMenu.None?
    {
      friends, activeMenu := [], None;
    }

    /** The menu button of friend `id`. */
    method ToggleMenu(id: string)
      modifies this
      ensures activeMenu == Toggled(old(activeMenu), id)
      ensures friends == old(friends)
    {
      if activeMenu == Some(id) {
        activeMenu := None;
      } else {
        activeMenu := Some(id);
      }
    }

    /** `handleRemoveFriend(id)`: only closes the menu; removal itself is not implemented in the page. */
    method RemoveFriend(id: string)
      modifies this
      ensures activeMenu.None? && friends == old(friends)
    {
      activeMenu := None;
    }

    /** `handleSendMessage(id)`: only closes the menu; messaging is not implemented in the page. */
    method SendMessage(id: string)
      modifies this
      ensures activeMenu.None? && friends == old(friends)
    {
      activeMenu := None;
    }

    /** A click on the backdrop, when it is there. */
    method ClickOutside()
      modifies this
      ensures activeMenu == ClickedOutside(old(activeMenu))
      ensures friends == old(friends)
    {
      if Truthy(activeMenu) {
        activeMenu := None;
      }
    }
  }
}
