/** The navigation bar: the logout purge of the Supabase keys from the
    browser's local storage, the active-link test, and which links the
    desktop and mobile menus show. */
module Navbar {
  import opened Seqs
  import opened JsString

  /** `window.localStorage`: its keys in index order, each once, and
      their values. */
  class LocalStorage {
    var keys: seq<string>
    var items: map<string, string>

    ghost predicate Valid()
      reads this
    {
      Distinct(keys) && forall k :: k in items <==> k in keys
    }

    constructor(keys0: seq<string>, items0: map<string, string>)
      requires Distinct(keys0)
      requires forall k :: k in items0 <==> k in keys0
      ensures Valid() && keys == keys0 && items == items0
    {
      keys := keys0;
      items := items0;
    }

    /** `removeItem(key)`: the key and its value go, everything else
        stays in its order. */
    method RemoveItem(key: string)
      requires Valid()
      modifies this
      ensures Valid()
      ensures forall k :: k in keys <==> k in old(keys) && k != key
      ensures SubseqOf(keys, old(keys))
      ensures items == old(items) - {key}
    {
      var others := (k: string) => k != key;
      FilterSubseq(keys, others);
      FilterMembers(keys, others);
      FilterDistinct(keys, others);
      keys := Filter(keys, others);
      items := items - {key};
    }
  }

  /** Supabase keeps its session under keys starting with 'sb-'. */
  predicate IsSupabaseKey(key: string) {
    StartsWith(key, "sb-")
  }

  /** The first pass of `handleLogout`: the index loop over the storage
      that collects `keysToRemove`, which changes nothing. */
  method CollectSupabaseKeys(storage: LocalStorage) returns (keysToRemove: seq<string>)
    ensures keysToRemove == Filter(storage.keys, IsSupabaseKey)
  {
    var keys := storage.keys;
    keysToRemove := [];
    var i := 0;
    while i < |keys|
      invariant 0 <= i <= |keys|
      invariant keysToRemove == Filter(keys[..i], IsSupabaseKey)
    {
      var key := keys[i];
      assert keys[..i + 1] == keys[..i] + [key];
      FilterSnoc(keys[..i], key, IsSupabaseKey);
      if IsSupabaseKey(key) {
        keysToRemove := keysToRemove + [key];
      }
      i := i + 1;
    }
    assert keys[..|keys|] == keys;
  }

  /** The second pass: `removeItem` for each collected key. */
  method RemoveAll(storage: LocalStorage, keysToRemove: seq<string>)
    requires storage.Valid()
    modifies storage
    ensures storage.Valid()
    ensures forall k :: k in storage.keys <==> k in old(storage.keys) && k !in keysToRemove
    ensures SubseqOf(storage.keys, old(storage.keys))
    ensures forall k :: k in storage.items <==> k in old(storage.items) && k !in keysToRemove
    ensures forall k | k in storage.items :: storage.items[k] == old(storage.items)[k]
  {
    SubseqReflexive(storage.keys);
    var j := 0;
    while j < |keysToRemove|
      invariant 0 <= j <= |keysToRemove|
      invariant storage.Valid()
      invariant forall k :: k in storage.keys <==> k in old(storage.keys) && k !in keysToRemove[..j]
      invariant SubseqOf(storage.keys, old(storage.keys))
      invariant forall k :: k in storage.items <==> k in old(storage.items) && k !in keysToRemove[..j]
      invariant forall k | k in storage.items :: storage.items[k] == old(storage.items)[k]
    {
      ghost var before := storage.keys;
      assert keysToRemove[..j + 1] == keysToRemove[..j] + [keysToRemove[j]];
      storage.RemoveItem(keysToRemove[j]);
      SubseqTransitive(storage.keys, before, old(storage.keys));
      j := j + 1;
    }
    assert keysToRemove[..|keysToRemove|] == keysToRemove;
  }

  /** `handleLogout` after the sign-out call, whatever its outcome: no
      Supabase key is left, every other key keeps its value and its order,
      and the browser goes to '/'. */
  method HandleLogout(storage: LocalStorage) returns (location: string)
    requires storage.Valid()
    modifies storage
    ensures storage.Valid()
    ensures forall k | k in storage.keys :: !IsSupabaseKey(k)
    ensures forall k :: k in storage.keys <==> k in old(storage.keys) && !IsSupabaseKey(k)
    ensures SubseqOf(storage.keys, old(storage.keys))
    ensures forall k :: k in storage.items <==> k in old(storage.items) && !IsSupabaseKey(k)
    ensures forall k | k in storage.items :: storage.items[k] == old(storage.items)[k]
    ensures location == "/"
  {
    var keysToRemove := CollectSupabaseKeys(storage);
    FilterMembers(storage.keys, IsSupabaseKey);
    RemoveAll(storage, keysToRemove);
    location := "/";
  }

  /** `isActive(path)`. */
  function IsActive(pathname: string, path: string): (r: bool)
    ensures r <==> pathname == path
  {
    pathname == path
  }

  datatype NavLink = Home | Events | Contact | Profile | ClubProfile | Portal(superAdmin: bool) | Logout | AdminLogin | LoginRegister

  function Href(link: NavLink): string {
    match link
    case Home => "/"
    case Events => "/events"
    case Contact => "/contact"
    case Profile => "/profile"
    case ClubProfile => "/admin/club-profile"
    case Portal(_) => "/admin"
    case Logout => ""
    case AdminLogin => "/admin/login"
    case LoginRegister => "/auth"
  }

  /** The desktop links whose style follows `isActive`. */
  predicate Highlighted(pathname: string, link: NavLink) {
    (link.Home? || link.Events? || link.Contact? || link.Profile? || link.ClubProfile?) &&
    IsActive(pathname, Href(link))
  }

  /** The portal link reads 'Super Admin Portal' exactly for a super
      admin. */
  function PortalCaption(link: NavLink): (r: string)
    requires link.Portal?
    ensures r == "Super Admin Portal" <==> link.superAdmin
    ensures r == "Admin Portal" <==> !link.superAdmin
  {
    if link.superAdmin then "Super Admin Portal" else "Admin Portal"
  }

  /** The links of a logged-in user after Home, Events and Contact. */
  function AccountLinks(isAdmin: bool, isSuperAdmin: bool): seq<NavLink> {
    [Profile] + (if isAdmin && !isSuperAdmin then [ClubProfile] else []) +
    (if isAdmin then [Portal(isSuperAdmin)] else []) + [Logout]
  }

  /** The desktop bar from left to right. */
  function DesktopLinks(hasUser: bool, isAdmin: bool, isSuperAdmin: bool): (r: seq<NavLink>)
    ensures |r| >= 4 && r[..2] == [Home, Events]
  {
    [Home, Events] + (if hasUser && !isAdmin then [Contact] else []) +
    (if hasUser then AccountLinks(isAdmin, isSuperAdmin) else [AdminLogin, LoginRegister])
  }

  /** Which links the bar shows: Home and Events always, Contact for a
      logged-in non-admin, Profile and Logout for a user, Club Profile for
      an admin who is not a super admin, the portal with the caption of
      the admin's rank for every admin, and the two login links for a
      visitor. */
  predicate DesktopShows(link: NavLink, hasUser: bool, isAdmin: bool, isSuperAdmin: bool) {
    match link
    case Home => true
    case Events => true
    case Contact => hasUser && !isAdmin
    case Profile => hasUser
    case ClubProfile => hasUser && isAdmin && !isSuperAdmin
    case Portal(superAdmin) => hasUser && isAdmin && superAdmin == isSuperAdmin
    case Logout => hasUser
    case AdminLogin => !hasUser
    case LoginRegister => !hasUser
  }

  /** The desktop bar as the four combinations of the flags make it. */
  lemma DesktopCases(hasUser: bool, isAdmin: bool, isSuperAdmin: bool)
    ensures !hasUser ==> DesktopLinks(hasUser, isAdmin, isSuperAdmin) == [Home, Events, AdminLogin, LoginRegister]
    ensures hasUser && !isAdmin ==> DesktopLinks(hasUser, isAdmin, isSuperAdmin) == [Home, Events, Contact, Profile, Logout]
    ensures hasUser && isAdmin && isSuperAdmin ==>
      DesktopLinks(hasUser, isAdmin, isSuperAdmin) == [Home, Events, Profile, Portal(true), Logout]
    ensures hasUser && isAdmin && !isSuperAdmin ==>
      DesktopLinks(hasUser, isAdmin, isSuperAdmin) == [Home, Events, Profile, ClubProfile, Portal(false), Logout]
  {
  }

  /** A link is on the desktop bar exactly when `DesktopShows` says so. */
  lemma DesktopVisibility(hasUser: bool, isAdmin: bool, isSuperAdmin: bool, link: NavLink)
    ensures link in DesktopLinks(hasUser, isAdmin, isSuperAdmin) <==> DesktopShows(link, hasUser, isAdmin, isSuperAdmin)
  {
    DesktopCases(hasUser, isAdmin, isSuperAdmin);
  }

  /** The mobile menu from top to bottom: the same links, but a logged-out
      visitor sees Login/Register above Admin Login. */
  function MobileLinks(hasUser: bool, isAdmin: bool, isSuperAdmin: bool): (r: seq<NavLink>)
    ensures hasUser ==> r == DesktopLinks(hasUser, isAdmin, isSuperAdmin)
    ensures !hasUser ==> r == [Home, Events, LoginRegister, AdminLogin]
  {
    [Home, Events] + (if hasUser && !isAdmin then [Contact] else []) +
    (if hasUser then AccountLinks(isAdmin, isSuperAdmin) else [LoginRegister, AdminLogin])
  }

  /** Both menus hold the same links, each as often. */
  lemma MobileSameLinks(hasUser: bool, isAdmin: bool, isSuperAdmin: bool)
    ensures multiset(MobileLinks(hasUser, isAdmin, isSuperAdmin)) == multiset(DesktopLinks(hasUser, isAdmin, isSuperAdmin))
  {
    if !hasUser {
      DesktopCases(hasUser, isAdmin, isSuperAdmin);
      calc {
        multiset(MobileLinks(hasUser, isAdmin, isSuperAdmin));
        multiset([Home, Events]) + multiset([LoginRegister]) + multiset([AdminLogin]);
        multiset([Home, Events]) + multiset([AdminLogin]) + multiset([LoginRegister]);
        multiset(DesktopLinks(hasUser, isAdmin, isSuperAdmin));
      }
    }
  }

  /** At most one desktop link is highlighted for any path. */
  lemma OneHighlightAtMost(pathname: string, hasUser: bool, isAdmin: bool, isSuperAdmin: bool, a: NavLink, b: NavLink)
    requires a in DesktopLinks(hasUser, isAdmin, isSuperAdmin) && b in DesktopLinks(hasUser, isAdmin, isSuperAdmin)
    requires Highlighted(pathname, a) && Highlighted(pathname, b)
    ensures a == b
  {
    assert Href(a) == Href(b);
  }
}
