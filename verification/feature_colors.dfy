/** The colour classes of a feature card on the second copy's features page:
    a table from colour name to background, text and hover classes, with
    blue as the fallback. */
module FeatureColors {

  datatype ColorClasses = ColorClasses(bg: string, text: string, hover: string)

  /** The classes of colour `c` under the table's naming scheme. */
  function Scheme(c: string): ColorClasses {
    ColorClasses("bg-" + c + "-100", "text-" + c + "-600", "hover:bg-" + c + "-200")
  }

  /** The table's own keys. */
  const Palette := ["blue", "red", "green", "orange", "purple", "teal"]

  /** The `colors` record, written out entry by entry. */
  const Table: map<string, ColorClasses> := map[
    "blue" := ColorClasses("bg-blue-100", "text-blue-600", "hover:bg-blue-200"),
    "red" := ColorClasses("bg-red-100", "text-red-600", "hover:bg-red-200"),
    "green" := ColorClasses("bg-green-100", "text-green-600", "hover:bg-green-200"),
    "orange" := ColorClasses("bg-orange-100", "text-orange-600", "hover:bg-orange-200"),
    "purple" := ColorClasses("bg-purple-100", "text-purple-600", "hover:bg-purple-200"),
    "teal" := ColorClasses("bg-teal-100", "text-teal-600", "hover:bg-teal-200")
  ]

  /** The colours the shipped feature cards ask for, in card order. */
  const ShippedColors := ["blue", "red", "green", "orange", "purple", "teal"]

  lemma TableKeys()
    ensures Table.Keys == set c | c in Palette
  {
  }

  lemma BlueEntry()
    ensures Table["blue"] == Scheme("blue")
  {
  }

  lemma RedEntry()
    ensures Table["red"] == Scheme("red")
  {
  }

  lemma GreenEntry()
    ensures Table["green"] == Scheme("green")
  {
  }

  lemma OrangeEntry()
    ensures Table["orange"] == Scheme("orange")
  {
  }

  lemma PurpleEntry()
    ensures Table["purple"] == Scheme("purple")
  {
  }

  lemma TealEntry()
    ensures Table["teal"] == Scheme("teal")
  {
  }

  /** Every entry follows the naming scheme of its key. */
  lemma TableFollowsScheme(c: string)
    requires c in Table
    ensures Table[c] == Scheme(c)
  {
    TableKeys();
    BlueEntry();
    RedEntry();
    GreenEntry();
    OrangeEntry();
    PurpleEntry();
    TealEntry();
  }

  /** What `colors[color]` finds in a plain JavaScript object: an own entry,
      a member every object inherits (its value is a function), or nothing. */
  datatype Found = Own(classes: ColorClasses) | Inherited(member: string) | NotFound

  /** The members every object inherits from `Object.prototype`. */
  const InheritedMembers := {
    "constructor", "hasOwnProperty", "isPrototypeOf", "propertyIsEnumerable",
    "toLocaleString", "toString", "valueOf", "__proto__",
    "__defineGetter__", "__defineSetter__", "__lookupGetter__", "__lookupSetter__"
  }

  /** `colors[color]`: own keys first, then the inherited members; anything
      else is `undefined`. */
  function PropertyLookup(color: string): (r: Found)
    ensures r.Own? <==> color in Table
    ensures r.Own? ==> r.classes == Scheme(color)
    ensures r.Inherited? <==> color !in Table && color in InheritedMembers
    ensures r.Inherited? ==> r.member == color
  {
    if color in Table then
      TableFollowsScheme(color);
      Own(Table[color])
    else if color in InheritedMembers then Inherited(color)
    else NotFound
  }

  /** `colors[color] || colors.blue` as written: both an own entry and an
      inherited member are truthy, so only a missing property falls back. */
  function ColorClassesAsWritten(color: string): (r: Found)
    ensures color in Table ==> r == Own(Table[color])
    ensures color !in Table && color !in InheritedMembers ==> r == Own(Table["blue"])
  {
    var found := PropertyLookup(color);
    if found.NotFound? then Own(Table["blue"]) else found
  }

  /** The name "toString" is not a colour of the table, yet it does not fall
      back to blue: the lookup returns the inherited function, whose `bg`,
      `text` and `hover` are `undefined`. */
  lemma AsWrittenInheritedName()
    ensures "toString" !in Table
    ensures !ColorClassesAsWritten("toString").Own?
  {
  }

  /** The lookup with an own-property test: the table entry for a table key,
      the blue entry for any other name. */
  function ColorClassesFor(color: string): (r: ColorClasses)
    ensures color in Table ==> r == Scheme(color)
    ensures color !in Table ==> r == Scheme("blue")
  {
    TableFollowsScheme("blue");
    if color in Table then
      TableFollowsScheme(color);
      Table[color]
    else Table["blue"]
  }

  /** Every name gets classes of the scheme for a palette colour. */
  lemma ClassesAlwaysFromPalette(color: string)
    ensures exists c | c in Palette :: ColorClassesFor(color) == Scheme(c)
  {
    TableKeys();
    if color in Table {
      assert color in Palette;
    } else {
      assert Palette[0] in Palette && ColorClassesFor(color) == Scheme(Palette[0]);
    }
  }

  /** For the shipped cards the fallback is never taken, and the correction
      gives the same classes as the code as written. */
  lemma ShippedColorsKnown(i: int)
    requires 0 <= i < |ShippedColors|
    ensures ShippedColors[i] in Table
    ensures ColorClassesAsWritten(ShippedColors[i]) == Own(ColorClassesFor(ShippedColors[i]))
  {
    TableKeys();
    assert ShippedColors[i] == Palette[i];
    TableFollowsScheme(ShippedColors[i]);
  }
}
