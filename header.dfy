/**
 * The site header: which navigation links are shown for the current login
 * state, and the light/dark theme, chosen once from the stored preference
 * or the system setting and flipped by the toggle button.
 *
 * Browser storage, the media query and the `dark` class on the document
 * root are fields of a `Theme` object and values passed in.
 */
module Header {
  import opened Wrappers

  /** A navigation entry; `auth` is absent, or says whether it needs a login (true) or is for guests (false). */
  datatype NavItem = NavItem(name: string, path: string, auth: Option<bool>)

  const Home := NavItem("Home", "/", None)
  const Login := NavItem("Login", "/login", Some(false))
  const Register := NavItem("Register", "/register", Some(false))
  const Upload := NavItem("Upload", "/upload", Some(true))
  const Prescriptions := NavItem("Prescriptions", "/prescriptions", Some(true))
  const CreateSchedule := NavItem("Create Schedule", "/schedule", Some(true))

  /** The declared entries, in their display order. */
  const NavItems: seq<NavItem> := [Home, Login, Register, Upload, Prescriptions, CreateSchedule]

  /** `authStatus ? item.auth !== false : item.auth !== true` */
  predicate ShownFor(authStatus: bool, item: NavItem) {
    if authStatus then item.auth != Some(false) else item.auth != Some(true)
  }

  /** `xs` is `ys` with some entries deleted and the rest kept in order. */
  predicate IsSubsequence(xs: seq<NavItem>, ys: seq<NavItem>) {
    if xs == [] then true
    else if ys == [] then false
    else (xs[0] == ys[0] && IsSubsequence(xs[1..], ys[1..])) || IsSubsequence(xs, ys[1..])
  }

  /** The entries rendered in the navigation bar. */
  function VisibleItems(items: seq<NavItem>, authStatus: bool): (r: seq<NavItem>)
    ensures IsSubsequence(r, items)
  {
    if items == [] then []
    else if ShownFor(authStatus, items[0]) then [items[0]] + VisibleItems(items[1..], authStatus)
    else VisibleItems(items[1..], authStatus)
  }

  /** An entry is rendered exactly when it is declared and its flag allows it. */
  lemma {:induction false} VisibleMembers(items: seq<NavItem>, authStatus: bool)
    ensures forall x :: x in VisibleItems(items, authStatus) <==> x in items && ShownFor(authStatus, x)
  {
    if items != [] {
      VisibleMembers(items[1..], authStatus);
      assert forall x :: x in items <==> x == items[0] || x in items[1..];
    }
  }

  /** An entry without a flag is shown whether or not someone is logged in. */
  lemma UnflaggedAlwaysShown(items: seq<NavItem>, item: NavItem, authStatus: bool)
    requires item in items && item.auth.None?
    ensures item in VisibleItems(items, authStatus)
  {
    VisibleMembers(items, authStatus);
  }

  /** The filter equation for the empty list. */
  lemma VisibleNil(authStatus: bool)
    ensures VisibleItems([], authStatus) == []
  {
  }

  /**
   * The filter equation for a non-empty list: the first entry is kept
   * exactly when its flag allows it, and the filter goes on with the rest.
   * With `VisibleNil` it fixes the result entry by entry, copies included.
   */
  lemma VisibleCons(x: NavItem, xs: seq<NavItem>, authStatus: bool)
    ensures VisibleItems([x] + xs, authStatus)
         == if ShownFor(authStatus, x) then [x] + VisibleItems(xs, authStatus) else VisibleItems(xs, authStatus)
  {
    assert ([x] + xs)[1..] == xs;
  }

  /** The filter over a list shaped like the declared one: one unflagged entry, two for guests, three for members. */
  lemma VisibleOfShape(h: NavItem, l: NavItem, r: NavItem, u: NavItem, p: NavItem, c: NavItem, authStatus: bool)
    requires h.auth.None? && l.auth == Some(false) && r.auth == Some(false)
    requires u.auth == Some(true) && p.auth == Some(true) && c.auth == Some(true)
    ensures VisibleItems([h, l, r, u, p, c], authStatus) == if authStatus then [h, u, p, c] else [h, l, r]
  {
    var members := [u, p, c];
    VisibleMembersPart(u, p, c, authStatus);
    VisibleGuestsPart(l, r, members, authStatus);
    VisibleCons(h, [l, r] + members, authStatus);
    assert [h, l, r, u, p, c] == [h] + ([l, r] + members);
    assert [h] + members == [h, u, p, c] && [h] + ([l, r] + []) == [h, l, r];
  }

  /** The two guest entries in front of any list: dropped when logged in, kept otherwise. */
  lemma VisibleGuestsPart(l: NavItem, r: NavItem, rest: seq<NavItem>, authStatus: bool)
    requires l.auth == Some(false) && r.auth == Some(false)
    ensures VisibleItems([l, r] + rest, authStatus)
         == if authStatus then VisibleItems(rest, authStatus) else [l, r] + VisibleItems(rest, authStatus)
  {
    VisibleCons(r, rest, authStatus);
    VisibleCons(l, [r] + rest, authStatus);
    assert [l, r] + rest == [l] + ([r] + rest);
    assert [l] + ([r] + VisibleItems(rest, authStatus)) == [l, r] + VisibleItems(rest, authStatus);
  }

  /** The three entries that need a login: all shown when logged in, none otherwise. */
  lemma VisibleMembersPart(u: NavItem, p: NavItem, c: NavItem, authStatus: bool)
    requires u.auth == Some(true) && p.auth == Some(true) && c.auth == Some(true)
    ensures VisibleItems([u, p, c], authStatus) == if authStatus then [u, p, c] else []
  {
    VisibleCons(c, [], authStatus);
    VisibleCons(p, [c], authStatus);
    VisibleCons(u, [p, c], authStatus);
    assert [c] + [] == [c] && [p] + [c] == [p, c] && [u] + [p, c] == [u, p, c];
  }

  /** Logged in: everything but the guest entries. */
  lemma LoggedInItems()
    ensures VisibleItems(NavItems, true) == [Home, Upload, Prescriptions, CreateSchedule]
  {
    VisibleOfShape(Home, Login, Register, Upload, Prescriptions, CreateSchedule, true);
  }

  /** Logged out: everything but the entries that need a login. */
  lemma LoggedOutItems()
    ensures VisibleItems(NavItems, false) == [Home, Login, Register]
  {
    VisibleOfShape(Home, Login, Register, Upload, Prescriptions, CreateSchedule, false);
  }

  /** `stored ? stored === "dark" : prefersDark`: a non-empty stored value decides, else the system setting. */
  function InitialDark(stored: Option<string>, prefersDark: bool): (dark: bool)
    ensures stored.Some? && stored.value != "" ==> (dark <==> stored.value == "dark")
    ensures stored.None? || stored.value == "" ==> dark == prefersDark
  {
    match stored
    case Some(v) => if v != "" then v == "dark" else prefersDark
    case None => prefersDark
  }

  /** The value written to storage for a theme. */
  function ThemeName(dark: bool): (name: string)
    ensures name == "dark" <==> dark
    ensures name == "light" <==> !dark
  {
    if dark then "dark" else "light"
  }

  /** A persisted theme wins over the system setting at the next page load. */
  lemma StoredThemeWins(dark: bool, prefersDark: bool)
    ensures InitialDark(Some(ThemeName(dark)), prefersDark) == dark
  {
  }

  /** The header state: the `isDark` flag, the stored "theme" entry and the root's `dark` class. */
  datatype ThemeView = ThemeView(isDark: bool, stored: Option<string>, rootDark: bool)

  /** The effect of `toggleTheme` on the header state. */
  function Toggled(v: ThemeView): (w: ThemeView)
    ensures w.isDark == !v.isDark && w.rootDark == w.isDark
    ensures w.stored == Some(ThemeName(w.isDark))
  {
    var next := !v.isDark;
    ThemeView(next, Some(ThemeName(next)), next)
  }

  /** Two toggles give back the original theme, and a reload after a toggle keeps the new one. */
  lemma ToggleTwice(v: ThemeView, prefersDark: bool)
    ensures Toggled(Toggled(v)).isDark == v.isDark
    ensures Toggled(Toggled(v)).stored == Some(ThemeName(v.isDark))
    ensures InitialDark(Toggled(v).stored, prefersDark) == Toggled(v).isDark
  {
  }

  class Theme {
    var isDark: bool
    var stored: Option<string>
    var rootDark: bool

    function View(): ThemeView
      reads this
    {
      ThemeView(isDark, stored, rootDark)
    }

    /** `useState(false)` on a page whose storage and root class are as given. */
    constructor (stored: Option<string>, rootDark: bool)
      ensures View() == ThemeView(false, stored, rootDark)
    {
      this.isDark := false;
      this.stored := stored;
      this.rootDark := rootDark;
    }

    /** The mount effect: pick the theme and set the root class to match; storage is untouched. */
    method Initialize(prefersDark: bool)
      modifies this
      ensures isDark == InitialDark(old(stored), prefersDark) && rootDark == isDark
      ensures stored == old(stored)
    {
      isDark := InitialDark(stored, prefersDark);
      rootDark := isDark;
    }

    /** `toggleTheme` */
    method Toggle()
      modifies this
      ensures View() == Toggled(old(View()))
    {
      var next := !isDark;
      isDark := next;
      rootDark := next;
      stored := Some(if next then "dark" else "light");
    }
  }
}
