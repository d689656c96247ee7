/**
 * The navigation toggle and the newsletter form: the decisions their
 * handlers make, with the ARIA attributes and field values as state.
 */
module SiteNav {

  /** The confirmation the newsletter note shows after a submission. */
  const THANK_YOU: string := "Thank you! Stories from Afropop Worldwide are on the way."

  /** The menu button's `aria-expanded` and the menu's `aria-hidden`. */
  class NavMenu {
    var ariaExpanded: bool
    var ariaHidden: bool

    /** The two attributes always say the same thing. */
    ghost predicate Valid()
      reads this
    {
      ariaHidden == !ariaExpanded
    }

    /** On load the menu is open exactly when the viewport is wider than 1024px. */
    constructor(narrow: bool)
      ensures Valid() && ariaExpanded == !narrow
    {
      ariaExpanded, ariaHidden := !narrow, narrow;
    }

    /** `setExpanded`: writes both attributes from one flag. */
    method SetExpanded(expanded: bool)
      modifies this
      ensures Valid() && ariaExpanded == expanded
    {
      ariaExpanded := expanded;
      ariaHidden := !expanded;
    }

    /** A click on the toggle flips the menu. */
    method Toggle()
      requires Valid()
      modifies this
      ensures Valid() && ariaExpanded == !old(ariaExpanded)
    {
      SetExpanded(!ariaExpanded);
    }

    /** A click on a menu link closes the menu on a narrow viewport and does nothing otherwise. */
    method LinkClicked(narrow: bool)
      requires Valid()
      modifies this
      ensures Valid()
      ensures ariaExpanded == (if narrow then false else old(ariaExpanded))
    {
      if narrow {
        SetExpanded(false);
      }
    }

    /** Crossing the breakpoint opens the menu when wide and closes it when narrow. */
    method BreakpointChanged(narrow: bool)
      modifies this
      ensures Valid() && ariaExpanded == !narrow
    {
      SetExpanded(!narrow);
    }
  }

  /** The email field (absent when the form has none) and the note (likewise). */
  class NewsletterForm {
    const hasEmailInput: bool
    const hasNote: bool
    var email: string
    var noteText: string
    var emailFocused: bool

    constructor(hasEmailInput: bool, hasNote: bool, email: string, noteText: string)
      ensures this.hasEmailInput == hasEmailInput && this.hasNote == hasNote
      ensures this.email == email && this.noteText == noteText && !emailFocused
    {
      this.hasEmailInput, this.hasNote := hasEmailInput, hasNote;
      this.email, this.noteText := email, noteText;
      emailFocused := false;
    }

    /**
     * `submit`: with no field or an empty one, focus the field and stop;
     * otherwise clear the field and show the confirmation.
     */
    method Submit() returns (accepted: bool)
      modifies this`email, this`noteText, this`emailFocused
      ensures accepted <==> hasEmailInput && old(email) != ""
      ensures !accepted ==>
        email == old(email) && noteText == old(noteText) && emailFocused == (hasEmailInput || old(emailFocused))
      ensures accepted ==>
        email == "" && emailFocused == old(emailFocused)
        && noteText == (if hasNote then THANK_YOU else old(noteText))
    {
      if !hasEmailInput || email == "" {
        if hasEmailInput {
          emailFocused := true;
        }
        return false;
      }
      email := "";
      if hasNote {
        noteText := THANK_YOU;
      }
      accepted := true;
    }
  }
}
