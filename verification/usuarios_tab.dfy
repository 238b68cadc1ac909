/**
 * The "Usuarios" tab: every account, grouped by role and split into online
 * and offline by the presence map. Presence arrives as a map from uid to the
 * truthiness of that entry's `online` flag.
 */
module UsuariosTab {
  import opened Common
  import opened Firestore

  datatype Category = Validators | Reporters | Community | Others

  const OthersRole: string := "Otros"

  /** `categories[user.role || 'Otros']`: the group a role lands in, if any. */
  function CategoryOf(role: string): (c: Option<Category>)
    ensures role == "" || role == OthersRole ==> c == Some(Others)
    ensures c == Some(Validators) <==> role == RoleValidator
    ensures c == Some(Reporters) <==> role == RoleReporter
    ensures c == Some(Community) <==> role == RoleCommunity
    ensures c.None? <==> role != "" && role != OthersRole && role != RoleValidator && role != RoleReporter && role != RoleCommunity
  {
    var r := OrElse(role, OthersRole);
    if r == RoleValidator then Some(Validators)
    else if r == RoleReporter then Some(Reporters)
    else if r == RoleCommunity then Some(Community)
    else if r == OthersRole then Some(Others)
    else None
  }

  /** `onlineStatus[uid] && onlineStatus[uid].online`. */
  predicate IsOnline(presence: map<Uid, bool>, uid: Uid)
  {
    uid in presence && presence[uid]
  }

  datatype Bucket = Bucket(online: seq<UserData>, offline: seq<UserData>)
  datatype Categories = Categories(validator: Bucket, reporter: Bucket, community: Bucket, others: Bucket)

  function ListOf(c: Categories, cat: Category, online: bool): seq<UserData>
  {
    var b := match cat
      case Validators => c.validator
      case Reporters => c.reporter
      case Community => c.community
      case Others => c.others;
    if online then b.online else b.offline
  }

  /** Appends `u` to one of the eight lists, as `push` does. */
  function Push(c: Categories, cat: Category, online: bool, u: UserData): (r: Categories)
    ensures forall k, o :: ListOf(r, k, o) == ListOf(c, k, o) + (if k == cat && o == online then [u] else [])
  {
    var add := (b: Bucket) => if online then b.(online := b.online + [u]) else b.(offline := b.offline + [u]);
    match cat
    case Validators => c.(validator := add(c.validator))
    case Reporters => c.(reporter := add(c.reporter))
    case Community => c.(community := add(c.community))
    case Others => c.(others := add(c.others))
  }

  /** The users that belong in list (`cat`, `online`). */
  function Selects(cat: Category, online: bool, presence: map<Uid, bool>): UserData -> bool
  {
    (u: UserData) => CategoryOf(u.data.role) == Some(cat) && IsOnline(presence, u.id) == online
  }

  /** The eight lists, each the users of `allUsers` that belong in it, in order. */
  function Categorized(allUsers: seq<UserData>, presence: map<Uid, bool>): Categories
  {
    Categories(
      Bucket(Filter(allUsers, Selects(Validators, true, presence)), Filter(allUsers, Selects(Validators, false, presence))),
      Bucket(Filter(allUsers, Selects(Reporters, true, presence)), Filter(allUsers, Selects(Reporters, false, presence))),
      Bucket(Filter(allUsers, Selects(Community, true, presence)), Filter(allUsers, Selects(Community, false, presence))),
      Bucket(Filter(allUsers, Selects(Others, true, presence)), Filter(allUsers, Selects(Others, false, presence))))
  }

  lemma CategorizedLists(allUsers: seq<UserData>, presence: map<Uid, bool>)
    ensures forall cat, online :: ListOf(Categorized(allUsers, presence), cat, online) == Filter(allUsers, Selects(cat, online, presence))
  {
    forall cat, online
      ensures ListOf(Categorized(allUsers, presence), cat, online) == Filter(allUsers, Selects(cat, online, presence))
    {
      match cat
      case Validators =>
      case Reporters =>
      case Community =>
      case Others =>
    }
  }

  /** Groupings with the same eight lists are the same. */
  lemma ListsDetermine(c: Categories, d: Categories)
    requires forall cat, online :: ListOf(c, cat, online) == ListOf(d, cat, online)
    ensures c == d
  {
    assert ListOf(c, Validators, true) == ListOf(d, Validators, true) && ListOf(c, Validators, false) == ListOf(d, Validators, false);
    assert ListOf(c, Reporters, true) == ListOf(d, Reporters, true) && ListOf(c, Reporters, false) == ListOf(d, Reporters, false);
    assert ListOf(c, Community, true) == ListOf(d, Community, true) && ListOf(c, Community, false) == ListOf(d, Community, false);
    assert ListOf(c, Others, true) == ListOf(d, Others, true) && ListOf(c, Others, false) == ListOf(d, Others, false);
  }

  /** One more user pushed into its list keeps every list equal to the grouping of the users seen. */
  lemma PushOneList(c: Categories, seen: seq<UserData>, u: UserData, presence: map<Uid, bool>, d: Categories, k: Category, o: bool)
    requires ListOf(c, k, o) == Filter(seen, Selects(k, o, presence))
    requires d == if CategoryOf(u.data.role).Some? then Push(c, CategoryOf(u.data.role).value, IsOnline(presence, u.id), u) else c
    ensures ListOf(d, k, o) == Filter(seen + [u], Selects(k, o, presence))
  {
    FilterSnoc(seen, u, Selects(k, o, presence));
  }

  /** `categorizedUsers`: one pass over `allUsers`, pushing each user into its list. */
  method CategorizeUsers(allUsers: seq<UserData>, presence: map<Uid, bool>) returns (c: Categories)
    ensures c == Categorized(allUsers, presence)
  {
    c := Categories(Bucket([], []), Bucket([], []), Bucket([], []), Bucket([], []));
    for i := 0 to |allUsers|
      invariant forall cat, online :: ListOf(c, cat, online) == Filter(allUsers[..i], Selects(cat, online, presence))
    {
      var u := allUsers[i];
      var cat := CategoryOf(u.data.role);
      var online := u.id in presence && presence[u.id];
      ghost var before := c;
      if cat.Some? {
        c := Push(c, cat.value, online, u);
      }
      forall k, o
        ensures ListOf(c, k, o) == Filter(allUsers[..i] + [u], Selects(k, o, presence))
      {
        PushOneList(before, allUsers[..i], u, presence, c, k, o);
      }
      assert allUsers[..i + 1] == allUsers[..i] + [u];
    }
    assert allUsers[..|allUsers|] == allUsers;
    CategorizedLists(allUsers, presence);
    ListsDetermine(c, Categorized(allUsers, presence));
  }

  // ---------------------------------------------------------------------
  // Properties of the grouping
  // ---------------------------------------------------------------------

  /**
   * A user with a known role is in exactly one list: its role's, online or
   * offline by presence. A user with any other role is in none.
   */
  lemma EachUserInOneList(allUsers: seq<UserData>, presence: map<Uid, bool>, u: UserData, cat: Category, online: bool)
    requires u in allUsers
    ensures u in ListOf(Categorized(allUsers, presence), cat, online) <==>
      CategoryOf(u.data.role) == Some(cat) && IsOnline(presence, u.id) == online
  {
    CategorizedLists(allUsers, presence);
  }

  /** A user is never both online and offline in a group. */
  lemma OnlineOfflineDisjoint(allUsers: seq<UserData>, presence: map<Uid, bool>, cat: Category)
    ensures forall u :: !(u in ListOf(Categorized(allUsers, presence), cat, true) &&
                          u in ListOf(Categorized(allUsers, presence), cat, false))
  {
    CategorizedLists(allUsers, presence);
  }

  /** Every list keeps the order of `allUsers`: grouping a concatenation concatenates the groups. */
  lemma CategorizedKeepsOrder(a: seq<UserData>, b: seq<UserData>, presence: map<Uid, bool>, cat: Category, online: bool)
    ensures ListOf(Categorized(a + b, presence), cat, online) ==
            ListOf(Categorized(a, presence), cat, online) + ListOf(Categorized(b, presence), cat, online)
  {
    CategorizedLists(a + b, presence);
    CategorizedLists(a, presence);
    CategorizedLists(b, presence);
    FilterAppend(a, b, Selects(cat, online, presence));
  }

  /** `getRoleColor(role)`. */
  function RoleColor(role: string): string
  {
    if role == RoleValidator then "text-blue-500"
    else if role == RoleReporter then "text-yellow-600"
    else if role == RoleCommunity then "text-green-500"
    else "text-gray-500"
  }

  /** The colour follows the group: blue, yellow and green for the three roles, gray for the rest. */
  lemma RoleColorFollowsCategory(role: string)
    ensures CategoryOf(role) == Some(Validators) <==> RoleColor(role) == "text-blue-500"
    ensures CategoryOf(role) == Some(Reporters) <==> RoleColor(role) == "text-yellow-600"
    ensures CategoryOf(role) == Some(Community) <==> RoleColor(role) == "text-green-500"
    ensures CategoryOf(role) == Some(Others) || CategoryOf(role).None? <==> RoleColor(role) == "text-gray-500"
  {
  }

  // ---------------------------------------------------------------------
  // The tab's state
  // ---------------------------------------------------------------------

  class UsersTab {
    var allUsers: seq<UserData>
    var onlineStatus: map<Uid, bool>
    var isLoadingUsers: bool
    var isLoadingStatus: bool

    constructor ()
      ensures allUsers == [] && onlineStatus == map[] && isLoadingUsers && isLoadingStatus
    {
      allUsers, onlineStatus, isLoadingUsers, isLoadingStatus := [], map[], true, true;
    }

    /** "Cargando usuarios..." shows while either source is still loading. */
    predicate IsLoading()
      reads this
    {
      isLoadingUsers || isLoadingStatus
    }

    /** The grouped lists, once both sources have answered. */
    function Shown(): (v: Option<Categories>)
      reads this
      ensures v.None? <==> IsLoading()
      ensures v.Some? ==> v.value == Categorized(allUsers, onlineStatus)
    {
      if IsLoading() then None else Some(Categorized(allUsers, onlineStatus))
    }

    /** The one-time `getDocs` of `users` finished; None when it failed. */
    method OnUsersFetched(result: Option<seq<UserData>>)
      modifies this
      ensures allUsers == (if result.Some? then result.value else old(allUsers))
      ensures !isLoadingUsers && isLoadingStatus == old(isLoadingStatus) && onlineStatus == old(onlineStatus)
    {
      if result.Some? {
        allUsers := result.value;
      }
      isLoadingUsers := false;
    }

    /** A presence snapshot arrived; an empty tree (`null`) reads as no entries. */
    method OnPresence(snapshot: Option<map<Uid, bool>>)
      modifies this
      ensures onlineStatus == (if snapshot.Some? then snapshot.value else map[])
      ensures !isLoadingStatus && isLoadingUsers == old(isLoadingUsers) && allUsers == old(allUsers)
    {
      onlineStatus := if snapshot.Some? then snapshot.value else map[];
      isLoadingStatus := false;
    }
  }

  /** Once both sources have answered, the lists are shown, whatever the order of the answers. */
  method LoadBothSources(users: Option<seq<UserData>>, presence: Option<map<Uid, bool>>, usersFirst: bool)
    returns (shown: Option<Categories>)
    ensures shown.Some?
    ensures shown.value == Categorized(if users.Some? then users.value else [],
                                       if presence.Some? then presence.value else map[])
  {
    var tab := new UsersTab();
    if usersFirst {
      tab.OnUsersFetched(users);
      assert tab.IsLoading();
      tab.OnPresence(presence);
    } else {
      tab.OnPresence(presence);
      assert tab.IsLoading();
      tab.OnUsersFetched(users);
    }
    shown := tab.Shown();
  }
}
