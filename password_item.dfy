/**
 * The display rules of one entry (src/components/PasswordItem.tsx): the show/hide toggle,
 * the masked password, the link target and the two-click delete.
 */
module PasswordItem {

  import opened Wrappers
  import opened Entries

  /** What a hidden password shows: twelve bullets (U+2022). */
  const Mask := "••••••••••••"

  predicate StartsWith(s: string, prefix: string)
  {
    |prefix| <= |s| && s[..|prefix|] == prefix
  }

  /** The link target: the url itself when it starts with "http", else with "https://" in front. */
  function Href(url: string): (href: string)
    ensures StartsWith(href, "http")
    ensures StartsWith(url, "http") ==> href == url
    ensures !StartsWith(url, "http") ==> href == "https://" + url
  {
    if StartsWith(url, "http") then url
    else
      assert ("https://" + url)[..4] == "http";
      "https://" + url
  }

  /** Normalising a link target again leaves it as it is. */
  lemma HrefIdempotent(url: string)
    ensures Href(Href(url)) == Href(url)
  {
  }

  /** The item's state: the entry shown, whether its password is revealed, whether delete is armed. */
  class ItemView {
    const entry: Entry
    var showPassword: bool
    var confirmDelete: bool

    constructor (entry: Entry)
      ensures this.entry == entry && !showPassword && !confirmDelete
    {
      this.entry := entry;
      showPassword := false;
      confirmDelete := false;
    }

    /** handleTogglePassword: flips the reveal state and nothing else. */
    method HandleTogglePassword()
      modifies this`showPassword
      ensures showPassword == !old(showPassword)
    {
      showPassword := !showPassword;
    }

    /**
     * handleDeleteClick: unarmed, the click only arms confirmation; armed, it calls onDelete
     * with the entry's id. `deleted` is the argument given to onDelete, None when it is not called.
     */
    method HandleDeleteClick() returns (deleted: Option<string>)
      modifies this`confirmDelete
      ensures !old(confirmDelete) ==> deleted == None && confirmDelete
      ensures old(confirmDelete) ==> deleted == Some(entry.id) && confirmDelete
    {
      if confirmDelete {
        deleted := Some(entry.id);
      } else {
        confirmDelete := true;
        deleted := None;
      }
    }

    /** The timer callback scheduled by the arming click: disarms confirmation. */
    method ResetConfirmDelete()
      modifies this`confirmDelete
      ensures !confirmDelete
    {
      confirmDelete := false;
    }

    /** displayPassword: the password when revealed, else the mask, whatever the password is. */
    function DisplayPassword(): (shown: string)
      reads this`showPassword
      ensures showPassword ==> shown == entry.password
      ensures !showPassword ==> shown == Mask && |shown| == 12
    {
      if showPassword then entry.password else Mask
    }
  }

  /** Two toggles restore the reveal state and leave the delete confirmation alone. */
  method ToggleTwice(item: ItemView)
    modifies item`showPassword
    ensures item.showPassword == old(item.showPassword)
    ensures item.confirmDelete == old(item.confirmDelete)
    ensures item.DisplayPassword() == old(item.DisplayPassword())
  {
    item.HandleTogglePassword();
    item.HandleTogglePassword();
  }

  /** From a fresh item, the first delete click only arms; the second deletes the entry's id. */
  method ClickDeleteTwice(entry: Entry) returns (first: Option<string>, second: Option<string>)
    ensures first == None && second == Some(entry.id)
  {
    var item := new ItemView(entry);
    first := item.HandleDeleteClick();
    second := item.HandleDeleteClick();
  }
}
