/** XCTest element types and their names on the wire. */
module ElementTypes {
  /** The types the mapper lists, and all the others XCTest knows, by raw value. */
  datatype ElementType =
    | Any | Other | Application | Window | Button | StaticText | TextField | SecureTextField
    | TextView | SearchField | Image | Cell | Table | CollectionView | ScrollView | Switch
    | Slider | NavigationBar | TabBar | Alert | Sheet | Link | Picker | PickerWheel
    | SegmentedControl | Stepper | Toggle | ActivityIndicator | ProgressIndicator | Toolbar
    | Menu | MenuItem | Keyboard | Key | StatusBar
    | Unlisted(raw: nat)

  const LISTED: seq<ElementType> := [
    Any, Other, Application, Window, Button, StaticText, TextField, SecureTextField,
    TextView, SearchField, Image, Cell, Table, CollectionView, ScrollView, Switch,
    Slider, NavigationBar, TabBar, Alert, Sheet, Link, Picker, PickerWheel,
    SegmentedControl, Stepper, Toggle, ActivityIndicator, ProgressIndicator, Toolbar,
    Menu, MenuItem, Keyboard, Key, StatusBar
  ]

  function TableKey(t: ElementType): string
    requires !t.Unlisted?
  {
    match t
    case Any => "any"
    case Other => "other"
    case Application => "application"
    case Window => "window"
    case Button => "button"
    case StaticText => "staticText"
    case TextField => "textField"
    case SecureTextField => "secureTextField"
    case TextView => "textView"
    case SearchField => "searchField"
    case Image => "image"
    case Cell => "cell"
    case Table => "table"
    case CollectionView => "collectionView"
    case ScrollView => "scrollView"
    case Switch => "switch"
    case Slider => "slider"
    case NavigationBar => "navigationBar"
    case TabBar => "tabBar"
    case Alert => "alert"
    case Sheet => "sheet"
    case Link => "link"
    case Picker => "picker"
    case PickerWheel => "pickerWheel"
    case SegmentedControl => "segmentedControl"
    case Stepper => "stepper"
    case Toggle => "toggle"
    case ActivityIndicator => "activityIndicator"
    case ProgressIndicator => "progressIndicator"
    case Toolbar => "toolbar"
    case Menu => "menu"
    case MenuItem => "menuItem"
    case Keyboard => "keyboard"
    case Key => "key"
    case StatusBar => "statusBar"
  }

  const PREFIX := "XCUIElementType"

  /** `lowercased()` and `uppercased()` of one character, for ASCII letters. */
  function Lower(c: char): char {
    if 'A' <= c <= 'Z' then ((c as int) + 32) as char else c
  }

  function Upper(c: char): char {
    if 'a' <= c <= 'z' then ((c as int) - 32) as char else c
  }

  function Lookup(key: string, table: seq<ElementType>): ElementType
    requires forall t <- table :: !t.Unlisted?
  {
    if table == [] then Any
    else if TableKey(table[0]) == key then table[0]
    else Lookup(key, table[1..])
  }

  lemma ListedIsListed()
    ensures forall t <- LISTED :: !t.Unlisted?
  {
  }

  /** The type a wire name stands for, with or without the prefix; an unknown name stands for any type. */
  function TypeNamed(name: string): ElementType {
    ListedIsListed();
    var key := if PREFIX <= name && name != PREFIX then [Lower(name[|PREFIX|])] + name[|PREFIX| + 1..]
               else if name == PREFIX then ""
               else name;
    Lookup(key, LISTED)
  }

  /** The wire name of a type; types outside the table pass for `Other`. */
  function NameFor(t: ElementType): string {
    if t.Unlisted? then "XCUIElementTypeOther"
    else
      KeyFingerprint(t);
      PREFIX + [Upper(TableKey(t)[0])] + TableKey(t)[1..]
  }

  // ---- The table is one-to-one ------------------------------------------------------------------

  /** Length and first two letters: enough to tell any two table keys apart. */
  function Fingerprint(t: ElementType): (nat, char, char)
    requires !t.Unlisted?
  {
    match t
    case Any => (3, 'a', 'n')
    case Other => (5, 'o', 't')
    case Application => (11, 'a', 'p')
    case Window => (6, 'w', 'i')
    case Button => (6, 'b', 'u')
    case StaticText => (10, 's', 't')
    case TextField => (9, 't', 'e')
    case SecureTextField => (15, 's', 'e')
    case TextView => (8, 't', 'e')
    case SearchField => (11, 's', 'e')
    case Image => (5, 'i', 'm')
    case Cell => (4, 'c', 'e')
    case Table => (5, 't', 'a')
    case CollectionView => (14, 'c', 'o')
    case ScrollView => (10, 's', 'c')
    case Switch => (6, 's', 'w')
    case Slider => (6, 's', 'l')
    case NavigationBar => (13, 'n', 'a')
    case TabBar => (6, 't', 'a')
    case Alert => (5, 'a', 'l')
    case Sheet => (5, 's', 'h')
    case Link => (4, 'l', 'i')
    case Picker => (6, 'p', 'i')
    case PickerWheel => (11, 'p', 'i')
    case SegmentedControl => (16, 's', 'e')
    case Stepper => (7, 's', 't')
    case Toggle => (6, 't', 'o')
    case ActivityIndicator => (17, 'a', 'c')
    case ProgressIndicator => (17, 'p', 'r')
    case Toolbar => (7, 't', 'o')
    case Menu => (4, 'm', 'e')
    case MenuItem => (8, 'm', 'e')
    case Keyboard => (8, 'k', 'e')
    case Key => (3, 'k', 'e')
    case StatusBar => (9, 's', 't')
  }

  lemma KeyFingerprint(t: ElementType)
    requires !t.Unlisted?
    ensures var key := TableKey(t);
      |key| >= 3 && Fingerprint(t) == (|key|, key[0], key[1]) && 'a' <= key[0] <= 'z'
  {
  }

  lemma ShortFingerprints(t: ElementType, u: ElementType)
    requires !t.Unlisted? && !u.Unlisted? && Fingerprint(t) == Fingerprint(u) && Fingerprint(t).0 <= 7
    ensures t == u
  {
  }

  lemma LongFingerprints(t: ElementType, u: ElementType)
    requires !t.Unlisted? && !u.Unlisted? && Fingerprint(t) == Fingerprint(u) && Fingerprint(t).0 > 7
    ensures t == u
  {
  }

  lemma FingerprintsAreDistinct(t: ElementType, u: ElementType)
    requires !t.Unlisted? && !u.Unlisted? && Fingerprint(t) == Fingerprint(u)
    ensures t == u
  {
    if Fingerprint(t).0 <= 7 { ShortFingerprints(t, u); } else { LongFingerprints(t, u); }
  }

  lemma KeysAreDistinct(t: ElementType, u: ElementType)
    requires !t.Unlisted? && !u.Unlisted? && TableKey(t) == TableKey(u)
    ensures t == u
  {
    KeyFingerprint(t);
    KeyFingerprint(u);
    FingerprintsAreDistinct(t, u);
  }

  function Position(t: ElementType): nat
    requires !t.Unlisted?
  {
    match t
    case Any => 0 case Other => 1 case Application => 2 case Window => 3 case Button => 4
    case StaticText => 5 case TextField => 6 case SecureTextField => 7 case TextView => 8
    case SearchField => 9 case Image => 10 case Cell => 11 case Table => 12 case CollectionView => 13
    case ScrollView => 14 case Switch => 15 case Slider => 16 case NavigationBar => 17 case TabBar => 18
    case Alert => 19 case Sheet => 20 case Link => 21 case Picker => 22 case PickerWheel => 23
    case SegmentedControl => 24 case Stepper => 25 case Toggle => 26 case ActivityIndicator => 27
    case ProgressIndicator => 28 case Toolbar => 29 case Menu => 30 case MenuItem => 31
    case Keyboard => 32 case Key => 33 case StatusBar => 34
  }

  lemma EveryListedTypeIsInTheTable(t: ElementType)
    requires !t.Unlisted?
    ensures t in LISTED
  {
    assert LISTED[Position(t)] == t;
  }

  lemma {:induction false} LookupFinds(t: ElementType, table: seq<ElementType>)
    requires forall u <- table :: !u.Unlisted?
    requires t in table
    ensures Lookup(TableKey(t), table) == t
    decreases |table|
  {
    if TableKey(table[0]) == TableKey(t) {
      KeysAreDistinct(table[0], t);
    } else {
      LookupFinds(t, table[1..]);
    }
  }

  lemma UnlistedPassesForOther(t: ElementType)
    requires t.Unlisted?
    ensures NameFor(t) == NameFor(Other)
  {
    assert TableKey(Other)[1..] == "ther";
    assert PREFIX + [Upper('o')] + "ther" == "XCUIElementTypeOther";
  }

  lemma KeyOfName(key: string)
    requires key != "" && 'a' <= key[0] <= 'z'
    ensures var name := PREFIX + [Upper(key[0])] + key[1..];
      PREFIX <= name && name != PREFIX && [Lower(name[|PREFIX|])] + name[|PREFIX| + 1..] == key
  {
    var name := PREFIX + [Upper(key[0])] + key[1..];
    assert name[|PREFIX|] == Upper(key[0]) && name[|PREFIX| + 1..] == key[1..];
    assert Lower(Upper(key[0])) == key[0];
  }

  /**
   Printing a type and reading the name back. A listed type survives; any other comes back as
   `Other`, which is a different type, so a locator that names it looks for the wrong elements.
  */
  lemma TypeNameRoundTrip(t: ElementType)
    ensures TypeNamed(NameFor(t)) == if t.Unlisted? then Other else t
  {
    ListedIsListed();
    var u := if t.Unlisted? then Other else t;
    if t.Unlisted? { UnlistedPassesForOther(t); }
    KeyFingerprint(u);
    KeyOfName(TableKey(u));
    EveryListedTypeIsInTheTable(u);
    LookupFinds(u, LISTED);
  }

  lemma NoPrefix(key: string)
    requires key != "" && 'a' <= key[0] <= 'z'
    ensures forall t <- LISTED :: !t.Unlisted?
    ensures TypeNamed(key) == Lookup(key, LISTED)
  {
    ListedIsListed();
    assert PREFIX[0] == 'X';
  }

  /** A name from the table stands for its type without the prefix too. */
  lemma BareNames(t: ElementType)
    requires !t.Unlisted?
    ensures TypeNamed(TableKey(t)) == t
  {
    KeyFingerprint(t);
    NoPrefix(TableKey(t));
    EveryListedTypeIsInTheTable(t);
    LookupFinds(t, LISTED);
  }

  /** Whatever is no name of a listed type, with or without the prefix, stands for any. */
  lemma {:induction false} OtherNamesStandForAny(key: string, table: seq<ElementType>)
    requires forall t <- table :: !t.Unlisted? && TableKey(t) != key
    ensures Lookup(key, table) == Any
    decreases |table|
  {
    if table != [] { OtherNamesStandForAny(key, table[1..]); }
  }

  lemma UnknownNames(name: string)
    requires !(PREFIX <= name) && forall t <- LISTED :: !t.Unlisted? && TableKey(t) != name
    ensures TypeNamed(name) == Any
  {
    OtherNamesStandForAny(name, LISTED);
  }
}
