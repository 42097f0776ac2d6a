/**
 * The dashboard's wind-direction lookup: a direction name in Indonesian or
 * English becomes a compass bearing in degrees through a fixed table, with
 * 0 for anything the table does not list.
 */
module Wind {
  import opened Text

  /** The direction table exactly as written: 20 keys, 12 distinct
      bearings, `None` for a name it does not list. Bearings are reals so
      that 22.5 and its kin are exact. */
  function WindTable(key: string): (r: Option<real>)
    ensures r.Some? ==> r.value in Bearings && 0.0 <= r.value <= 337.5
  {
    match key
    case "utara" => Some(0.0)
    case "north" => Some(0.0)
    case "timur laut" => Some(45.0)
    case "northeast" => Some(45.0)
    case "utara timur laut" => Some(22.5)
    case "timur" => Some(90.0)
    case "east" => Some(90.0)
    case "tenggara" => Some(135.0)
    case "southeast" => Some(135.0)
    case "timur tenggara" => Some(112.5)
    case "selatan" => Some(180.0)
    case "south" => Some(180.0)
    case "barat daya" => Some(225.0)
    case "southwest" => Some(225.0)
    case "selatan barat daya" => Some(202.5)
    case "barat" => Some(270.0)
    case "west" => Some(270.0)
    case "barat laut" => Some(315.0)
    case "northwest" => Some(315.0)
    case "utara barat laut" => Some(337.5)
    case _ => None
  }

  /** The twelve bearings the table holds. */
  const Bearings: set<real> :=
    {0.0, 22.5, 45.0, 90.0, 112.5, 135.0, 180.0, 202.5, 225.0, 270.0, 315.0, 337.5}

  /** The table key a direction is looked up under, lowercased and then
      trimmed: never longer than the direction, and with no whitespace at
      either end. */
  function NormalizeKey(direction: string): (k: string)
    ensures |k| <= |direction|
    ensures k == [] || (!IsWhitespace(k[0]) && !IsWhitespace(k[|k| - 1]))
  {
    Trim(Lower(direction))
  }

  /** A key already normalised is looked up as it is. */
  lemma NormalizeKeyIdempotent(direction: string)
    ensures NormalizeKey(NormalizeKey(direction)) == NormalizeKey(direction)
  {
    var k := NormalizeKey(direction);
    TrimSpec(Lower(direction));
    var a, b :| 0 <= a <= b <= |direction| && k == Lower(direction)[a..b];
    LowerSliceOfLower(direction, a, b);
    if k != [] {
      TrimUnchanged(k);
    }
  }

  /** `windToDegrees(direction)`: always one of the twelve bearings, and 0
      for any direction the table does not list. */
  function WindToDegrees(direction: string): (r: real)
    ensures r in Bearings
    ensures 0.0 <= r <= 337.5
    ensures WindTable(NormalizeKey(direction)).None? ==> r == 0.0
  {
    var entry := WindTable(NormalizeKey(direction));
    if entry.Some? then entry.value else 0.0
  }

  /** The lookup sees its input only through `toLowerCase`. */
  lemma CaseInsensitive(direction: string)
    ensures WindToDegrees(Lower(direction)) == WindToDegrees(direction)
  {
    LowerIdempotent(direction);
  }

  /** Whitespace around the direction does not change the bearing. */
  lemma PaddingIgnored(ws1: string, direction: string, ws2: string)
    requires AllWhitespace(ws1) && AllWhitespace(ws2)
    ensures WindToDegrees(ws1 + direction + ws2) == WindToDegrees(direction)
  {
    LowerAppend(ws1 + direction, ws2);
    LowerAppend(ws1, direction);
    LowerWhitespace(ws1);
    LowerWhitespace(ws2);
    TrimPadded(ws1, Lower(direction), ws2);
  }

  lemma LowerWhitespace(ws: string)
    requires AllWhitespace(ws)
    ensures Lower(ws) == ws
  {
  }

  /** The four secondary-intercardinal bearings the table has no key for
      are never produced. */
  lemma NoMissingBearings(direction: string)
    ensures WindToDegrees(direction) !in {67.5, 157.5, 247.5, 292.5}
  {
    OnlyListedBearings(WindToDegrees(direction));
  }

  lemma OnlyListedBearings(r: real)
    requires r in Bearings
    ensures r !in {67.5, 157.5, 247.5, 292.5}
  {
  }

  /** Lowercase words separated by spaces, with no space at either end. */
  predicate IsNormalKey(k: string)
  {
    |k| > 0 && k[0] != ' ' && k[|k| - 1] != ' ' &&
    forall i :: 0 <= i < |k| ==> 'a' <= k[i] <= 'z' || k[i] == ' '
  }

  /** A key in normal form is looked up as it is. */
  lemma NormalKey(k: string)
    requires IsNormalKey(k)
    ensures NormalizeKey(k) == k
  {
    assert Lower(k) == k;
    TrimUnchanged(k);
  }

  // The keys of the table, two source lines at a time.

  lemma NorthEastKeysNormal(k: string)
    requires k in {"utara", "north", "timur laut", "northeast", "utara timur laut"}
    ensures IsNormalKey(k)
  {
  }

  lemma EastSouthKeysNormal(k: string)
    requires k in {"timur", "east", "tenggara", "southeast", "timur tenggara"}
    ensures IsNormalKey(k)
  {
  }

  lemma SouthWestKeysNormal(k: string)
    requires k in {"selatan", "south", "barat daya", "southwest", "selatan barat daya"}
    ensures IsNormalKey(k)
  {
  }

  lemma WestNorthKeysNormal(k: string)
    requires k in {"barat", "west", "barat laut", "northwest", "utara barat laut"}
    ensures IsNormalKey(k)
  {
  }

  /** Every key of the table is written in normal form. */
  lemma TableKeysNormal(k: string)
    requires WindTable(k).Some?
    ensures IsNormalKey(k)
  {
    if k in {"utara", "north", "timur laut", "northeast", "utara timur laut"} {
      NorthEastKeysNormal(k);
    } else if k in {"timur", "east", "tenggara", "southeast", "timur tenggara"} {
      EastSouthKeysNormal(k);
    } else if k in {"selatan", "south", "barat daya", "southwest", "selatan barat daya"} {
      SouthWestKeysNormal(k);
    } else {
      WestNorthKeysNormal(k);
    }
  }

  /** Every key of the table, given as it is written, yields its listed bearing. */
  lemma TableKeysFound(k: string)
    requires WindTable(k).Some?
    ensures WindToDegrees(k) == WindTable(k).value
  {
    TableKeysNormal(k);
    NormalKey(k);
  }

  /** The names on the eastern half of the rose, north to south: the
      Indonesian and English names of one direction agree. With
      TableKeysFound, each is also what WindToDegrees returns for the name. */
  lemma EasternNames()
    ensures WindTable("utara") == WindTable("north") == Some(0.0)
    ensures WindTable("utara timur laut") == Some(22.5)
    ensures WindTable("timur laut") == WindTable("northeast") == Some(45.0)
    ensures WindTable("timur") == WindTable("east") == Some(90.0)
    ensures WindTable("timur tenggara") == Some(112.5)
    ensures WindTable("tenggara") == WindTable("southeast") == Some(135.0)
    ensures WindTable("selatan") == WindTable("south") == Some(180.0)
  {
  }

  /** The names on the western half of the rose. Two English spellings of
      secondary-intercardinal directions are not keys; NoEnglishSecondary
      shows that no key at all names those bearings in English. */
  lemma WesternNames()
    ensures WindTable("selatan barat daya") == Some(202.5)
    ensures WindTable("barat daya") == WindTable("southwest") == Some(225.0)
    ensures WindTable("barat") == WindTable("west") == Some(270.0)
    ensures WindTable("barat laut") == WindTable("northwest") == Some(315.0)
    ensures WindTable("utara barat laut") == Some(337.5)
    ensures WindTable("north-northwest") == WindTable("south-southwest") == None
  {
  }

  /** The four secondary-intercardinal bearings the table lists are reached
      through their Indonesian names only: no English key gives one. */
  lemma NoEnglishSecondary(k: string)
    requires WindTable(k).Some? && WindTable(k).value in {22.5, 112.5, 202.5, 337.5}
    ensures k in {"utara timur laut", "timur tenggara", "selatan barat daya", "utara barat laut"}
  {
  }

  /** The feed's own spelling, with capitals, still finds its bearing. */
  lemma FeedNorthwest()
    ensures WindToDegrees("Barat Laut") == 315.0
  {
    CaseInsensitive("Barat Laut");
    assert Lower("Barat Laut") == "barat laut";
    TableKeysFound("barat laut");
  }

  lemma FeedNorth()
    ensures WindToDegrees("Utara") == 0.0
  {
    CaseInsensitive("Utara");
    assert Lower("Utara") == "utara";
    TableKeysFound("utara");
  }

  /** A name the table lacks, such as "Berubah-ubah" (variable), falls back to 0. */
  lemma UnknownDirection()
    ensures WindToDegrees("Berubah-ubah") == 0.0
  {
    CaseInsensitive("Berubah-ubah");
    assert Lower("Berubah-ubah") == "berubah-ubah";
    TrimUnchanged("berubah-ubah");
  }
}
