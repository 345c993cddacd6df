/**
 * The categories page (src/app/categories/page.tsx): categories of the
 * logged-in user, stored under a key derived from the user's email. In
 * storage a category names its icon; on the page it holds the icon itself.
 */
module Categories {
  import opened Wrappers
  import opened Storage
  import opened Users
  import Lists
  import StorageKeys

  /** The six icon components the page offers. */
  datatype Icon = Utensils | Car | Shirt | Home | Gift | Shapes

  datatype IconEntry = IconEntry(name: string, component: Icon)

  /** `availableIcons`, in order; `Shapes` is the fallback. */
  const AvailableIcons: seq<IconEntry> := [
    IconEntry("Utensils", Utensils),
    IconEntry("Car", Car),
    IconEntry("Shirt", Shirt),
    IconEntry("Home", Home),
    IconEntry("Gift", Gift),
    IconEntry("Shapes", Shapes)
  ]

  /** The names in the table, written out independently of it. */
  const IconNames: set<string> := {"Utensils", "Car", "Shirt", "Home", "Gift", "Shapes"}

  /** `t.find(i => i.name === name)`, as an index. */
  function NameIndex(t: seq<IconEntry>, name: string): int {
    Lists.FirstIndex(t, (e: IconEntry) => e.name == name)
  }

  /** `t.find(i => i.component === icon)`, as an index. */
  function IconIndex(t: seq<IconEntry>, icon: Icon): int {
    Lists.FirstIndex(t, (e: IconEntry) => e.component == icon)
  }

  /**
   * `availableIcons.find(i => i.name === name)?.component || Shapes`: the icon
   * listed beside the name, or `Shapes` for a name the table does not list.
   */
  function IconForName(name: string): (icon: Icon)
    ensures forall k :: 0 <= k < |AvailableIcons| && AvailableIcons[k].name == name ==> icon == AvailableIcons[k].component
    ensures (forall k :: 0 <= k < |AvailableIcons| ==> AvailableIcons[k].name != name) ==> icon == Shapes
  {
    TableIsOneToOne();
    var k := NameIndex(AvailableIcons, name);
    if k >= 0 then AvailableIcons[k].component else Shapes
  }

  /**
   * `availableIcons.find(i => i.component === icon)?.name || "Shapes"`: the
   * name listed beside the icon.
   */
  function NameForIcon(icon: Icon): (name: string)
    ensures forall k :: 0 <= k < |AvailableIcons| && AvailableIcons[k].component == icon ==> name == AvailableIcons[k].name
  {
    TableIsOneToOne();
    var k := IconIndex(AvailableIcons, icon);
    if k >= 0 then AvailableIcons[k].name else "Shapes"
  }

  /** Every name and every icon appears at most once in the table. */
  predicate OneToOne(t: seq<IconEntry>) {
    forall i, j :: 0 <= i < j < |t| ==> t[i].name != t[j].name && t[i].component != t[j].component
  }

  /** In a one-to-one table, looking up an entry's name or icon finds that entry. */
  lemma LookupFindsEntry(t: seq<IconEntry>, i: int)
    requires OneToOne(t) && 0 <= i < |t|
    ensures NameIndex(t, t[i].name) == i
    ensures IconIndex(t, t[i].component) == i
  {
    var n := NameIndex(t, t[i].name);
    assert n >= 0 && t[n].name == t[i].name;
    var c := IconIndex(t, t[i].component);
    assert c >= 0 && t[c].component == t[i].component;
  }

  /** The table has every name once and every icon once, and its names are the six known names. */
  lemma TableIsOneToOne()
    ensures OneToOne(AvailableIcons)
    ensures forall n :: n in IconNames <==> exists k :: 0 <= k < |AvailableIcons| && AvailableIcons[k].name == n
  {
    assert forall k :: 0 <= k < |AvailableIcons| ==> AvailableIcons[k].name in IconNames;
    assert AvailableIcons[0].name == "Utensils";
    assert AvailableIcons[1].name == "Car";
    assert AvailableIcons[2].name == "Shirt";
    assert AvailableIcons[3].name == "Home";
    assert AvailableIcons[4].name == "Gift";
    assert AvailableIcons[5].name == "Shapes";
  }

  /** Where each icon sits in the table. */
  function Position(icon: Icon): (i: int)
    ensures 0 <= i < |AvailableIcons| && AvailableIcons[i].component == icon
  {
    match icon
    case Utensils => 0
    case Car => 1
    case Shirt => 2
    case Home => 3
    case Gift => 4
    case Shapes => 5
  }

  /** Every icon has an entry, so its name leads back to it. */
  lemma IconRoundTrip(icon: Icon)
    ensures NameForIcon(icon) in IconNames
    ensures IconForName(NameForIcon(icon)) == icon
  {
    TableIsOneToOne();
    LookupFindsEntry(AvailableIcons, Position(icon));
  }

  /** A known name leads to an icon whose name is that name; any other name to `Shapes`. */
  lemma NameRoundTrip(name: string)
    ensures NameForIcon(IconForName(name)) == (if name in IconNames then name else "Shapes")
  {
    TableIsOneToOne();
    var k := NameIndex(AvailableIcons, name);
    if k >= 0 {
      LookupFindsEntry(AvailableIcons, k);
    } else {
      LookupFindsEntry(AvailableIcons, Position(Shapes));
    }
  }

  /** A category as kept in storage. */
  datatype StoredCategory = StoredCategory(id: string, name: string, iconName: string, color: Option<string>)

  /** A category as kept on the page. */
  datatype Category = Category(id: string, name: string, icon: Icon, color: Option<string>)

  function CategoryId(c: Category): string { c.id }

  /**
   * `mapStoredToCategory`: the other fields are copied; a known icon name gives
   * an icon stored under that name, any other name gives `Shapes`.
   */
  function ToCategory(s: StoredCategory): (c: Category)
    ensures c.id == s.id && c.name == s.name && c.color == s.color
    ensures s.iconName in IconNames ==> NameForIcon(c.icon) == s.iconName
    ensures s.iconName !in IconNames ==> c.icon == Shapes
  {
    NameRoundTrip(s.iconName);
    TableIsOneToOne();
    Category(s.id, s.name, IconForName(s.iconName), s.color)
  }

  /**
   * `mapCategoryToStored`: the other fields are copied; the icon is stored
   * under a known name that leads back to it.
   */
  function ToStored(c: Category): (s: StoredCategory)
    ensures s.id == c.id && s.name == c.name && s.color == c.color
    ensures s.iconName in IconNames && IconForName(s.iconName) == c.icon
  {
    IconRoundTrip(c.icon);
    StoredCategory(c.id, c.name, NameForIcon(c.icon), c.color)
  }

  /** Storing and reading back a category gives the same category. */
  lemma CategoryRoundTrip(c: Category)
    ensures ToCategory(ToStored(c)) == c
  {
    IconRoundTrip(c.icon);
  }

  /** Reading and storing again keeps a known icon name and turns any other into "Shapes". */
  lemma StoredRoundTrip(s: StoredCategory)
    ensures ToStored(ToCategory(s)) == (if s.iconName in IconNames then s else s.(iconName := "Shapes"))
  {
    NameRoundTrip(s.iconName);
  }

  function ToCategories(s: seq<StoredCategory>): (r: seq<Category>)
    ensures |r| == |s| && forall i :: 0 <= i < |s| ==> r[i] == ToCategory(s[i])
  {
    seq(|s|, i requires 0 <= i < |s| => ToCategory(s[i]))
  }

  function ToStoredList(c: seq<Category>): (r: seq<StoredCategory>)
    ensures |r| == |c| && forall i :: 0 <= i < |c| ==> r[i] == ToStored(c[i])
  {
    seq(|c|, i requires 0 <= i < |c| => ToStored(c[i]))
  }

  /** Storing a list and reading it back gives the same list. */
  lemma ListRoundTrip(cats: seq<Category>)
    ensures ToCategories(ToStoredList(cats)) == cats
  {
    forall i | 0 <= i < |cats| {
      CategoryRoundTrip(cats[i]);
    }
  }

  /** `initialCategoriesData` */
  const DefaultStored: seq<StoredCategory> := [
    StoredCategory("1", "Comida y Cena", "Utensils", Some("hsl(30, 80%, 60%)")),
    StoredCategory("2", "Transporte", "Car", Some("hsl(200, 70%, 60%)")),
    StoredCategory("3", "Vivienda", "Home", Some("hsl(120, 50%, 50%)"))
  ]

  /** The defaults name known icons only, so they are stored back unchanged. */
  lemma DefaultsRoundTrip()
    ensures ToStoredList(ToCategories(DefaultStored)) == DefaultStored
  {
    assert DefaultStored[0].iconName == "Utensils";
    assert DefaultStored[1].iconName == "Car";
    assert DefaultStored[2].iconName == "Home";
    KnownIconsRoundTrip(DefaultStored);
  }

  /** A stored list that names known icons only is stored back unchanged. */
  lemma KnownIconsRoundTrip(s: seq<StoredCategory>)
    requires forall i :: 0 <= i < |s| ==> s[i].iconName in IconNames
    ensures ToStoredList(ToCategories(s)) == s
  {
    forall i | 0 <= i < |s|
      ensures ToStoredList(ToCategories(s))[i] == s[i]
    {
      StoredRoundTrip(s[i]);
    }
  }

  /** `currentUserEmail` is truthy: a user is set. */
  predicate SignedIn(email: Option<string>) {
    email.Some? && email.value != ""
  }

  const CategoriesKeyBase: string := "remindme_categories"

  function UserKey(email: Option<string>): string {
    StorageKeys.GetUserSpecificKey(CategoriesKeyBase, email)
  }

  /**
   * The load effect: no list without a user; the stored list, read back, when
   * it parses; the defaults when it is absent, empty or does not parse.
   */
  function LoadCategories(email: Option<string>, stored: Stored<seq<StoredCategory>>): (r: seq<Category>)
    ensures !SignedIn(email) ==> r == []
    ensures SignedIn(email) && stored.Present? ==>
      |r| == |stored.value| && forall i :: 0 <= i < |r| ==> r[i] == ToCategory(stored.value[i])
    ensures SignedIn(email) && !stored.Present? ==> |r| == 3 && r == ToCategories(DefaultStored)
  {
    if !SignedIn(email) then []
    else if stored.Present? then ToCategories(stored.value)
    else ToCategories(DefaultStored)
  }

  /** What the page stored is what it loads the next time. */
  lemma ReloadGivesSameList(email: Option<string>, cats: seq<Category>)
    requires SignedIn(email)
    ensures LoadCategories(email, Present(ToStoredList(cats))) == cats
  {
    ListRoundTrip(cats);
  }

  /** The fields of the category dialog; `iconName` is the selected option's value. */
  datatype CategoryForm = CategoryForm(name: string, iconName: string, color: string)

  function FromForm(id: string, form: CategoryForm): (c: Category)
    ensures c.id == id && c.name == form.name
    ensures c.color.None? <==> form.color == ""
    ensures form.color != "" ==> c.color == Some(form.color)
    ensures form.iconName in IconNames ==> NameForIcon(c.icon) == form.iconName
    ensures form.iconName !in IconNames ==> c.icon == Shapes
  {
    NameRoundTrip(form.iconName);
    TableIsOneToOne();
    Category(id, form.name, IconForName(form.iconName), EmptyAsAbsent(form.color))
  }

  /**
   * `handleSaveCategory`: with a category being edited, every entry with its id
   * becomes the saved category; otherwise it is appended, with no sorting.
   */
  function SaveCategory(cats: seq<Category>, editingId: Option<string>, form: CategoryForm, freshId: string)
    : (r: seq<Category>)
    ensures editingId.Some? ==> |r| == |cats|
    ensures editingId.Some? ==> forall i :: 0 <= i < |cats| ==>
      r[i] == (if cats[i].id == editingId.value then FromForm(OrElse(editingId, freshId), form) else cats[i])
    ensures editingId.None? ==> |r| == |cats| + 1 && r[..|cats|] == cats && r[|cats|] == FromForm(freshId, form)
  {
    var saved := FromForm(OrElse(editingId, freshId), form);
    if editingId.Some? then Lists.ReplaceById(cats, CategoryId, editingId.value, saved)
    else cats + [saved]
  }

  /** `handleDeleteCategory`: drops the entries with that id, keeping the others in order. */
  function DeleteCategory(cats: seq<Category>, id: string): (r: seq<Category>)
    ensures forall i :: 0 <= i < |r| ==> r[i].id != id
    ensures forall i :: 0 <= i < |cats| && cats[i].id != id ==> cats[i] in r
    ensures forall i :: 0 <= i < |r| ==> r[i] in cats
    ensures multiset(r) <= multiset(cats)
    ensures forall x: Category :: x.id != id ==> multiset(r)[x] == multiset(cats)[x]
  {
    var r := Lists.RemoveById(cats, CategoryId, id);
    Lists.RemoveByIdKeeps(cats, CategoryId, id);
    Lists.RemoveByIdCounts(cats, CategoryId, id);
    r
  }

  function Lookup(storage: map<string, Stored<seq<StoredCategory>>>, key: string): Stored<seq<StoredCategory>> {
    if key in storage then storage[key] else Absent
  }

  /**
   * The save effect: with a user set, the list is stored under that user's
   * key; every other key keeps its value. Without a user nothing is written.
   */
  function SaveEffect(storage: map<string, Stored<seq<StoredCategory>>>, email: Option<string>, cats: seq<Category>)
    : (r: map<string, Stored<seq<StoredCategory>>>)
    ensures SignedIn(email) ==> Lookup(r, UserKey(email)) == Present(ToStoredList(cats))
    ensures !SignedIn(email) ==> r == storage
    ensures forall k :: k != UserKey(email) ==> Lookup(r, k) == Lookup(storage, k)
  {
    if SignedIn(email) then storage[UserKey(email) := Present(ToStoredList(cats))] else storage
  }

  /** The email the user effect takes from the logged-in record; none when it is absent or corrupt. */
  function SessionEmail(loggedIn: Stored<Session>): Option<string> {
    if loggedIn.Present? then loggedIn.value.email else None
  }

  /** The page's state; `storage` holds the category lists of all users by key. */
  class CategoriesPage {
    var currentUserEmail: Option<string>
    var categories: seq<Category>
    var storage: map<string, Stored<seq<StoredCategory>>>

    ghost predicate Persisted()
      reads this
    {
      SignedIn(currentUserEmail) ==> Lookup(storage, UserKey(currentUserEmail)) == Present(ToStoredList(categories))
    }

    /**
     * The page once its effects have run: the user effect reads the email,
     * the load effect reads that user's list and the save effect writes it
     * back under the same key.
     */
    constructor (loggedIn: Stored<Session>, saved: map<string, Stored<seq<StoredCategory>>>)
      ensures currentUserEmail == SessionEmail(loggedIn)
      ensures categories == LoadCategories(currentUserEmail, Lookup(saved, UserKey(currentUserEmail)))
      ensures storage == SaveEffect(saved, currentUserEmail, categories)
      ensures Persisted()
    {
      var email := SessionEmail(loggedIn);
      var loaded := LoadCategories(email, Lookup(saved, UserKey(email)));
      currentUserEmail := email;
      categories := loaded;
      storage := SaveEffect(saved, email, loaded);
    }

    method HandleSaveCategory(editingId: Option<string>, form: CategoryForm, freshId: string)
      modifies this
      ensures currentUserEmail == old(currentUserEmail)
      ensures categories == SaveCategory(old(categories), editingId, form, freshId)
      ensures storage == SaveEffect(old(storage), currentUserEmail, categories)
      ensures Persisted()
    {
      categories := SaveCategory(categories, editingId, form, freshId);
      storage := SaveEffect(storage, currentUserEmail, categories);
    }

    method HandleDeleteCategory(id: string)
      modifies this
      ensures currentUserEmail == old(currentUserEmail)
      ensures categories == DeleteCategory(old(categories), id)
      ensures storage == SaveEffect(old(storage), currentUserEmail, categories)
      ensures Persisted()
    {
      categories := DeleteCategory(categories, id);
      storage := SaveEffect(storage, currentUserEmail, categories);
    }
  }
}
