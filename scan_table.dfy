/**
 * The scan table of the analyst GUI (tools/ScanTable.java): grouping of
 * rows by the values of chosen columns, the group colour palette, the
 * naming of measurement columns, column typing and relative times.
 */
module AnalystScanTable {
  import opened Wrappers
  import opened Text
  import opened ScanGrouping

  // ----- colours -----

  datatype Color = Black | Hsb(hue: real, saturation: real, brightness: real)

  /** The hues of palette entries 1..16, as fractions of a turn. */
  const Hues: seq<real> := [0.0, 0.5, 0.25, 0.75, 0.125, 0.375, 0.625, 0.875,
                            0.0625, 0.1875, 0.3125, 0.4375, 0.5625, 0.6875, 0.8125, 0.9375]

  /** The brightness tier of palette entry i: 0.8 for entries 1-4, 0.65 for 5-8, 0.5 from 9 on. */
  function Tier(i: int): real
  {
    if i > 8 then 0.5 else if i > 4 then 0.65 else 0.8
  }

  /** COLORS: black, then one saturated colour per hue, dimmer in each later tier. */
  function Palette(): (p: seq<Color>)
    ensures |p| == 17
  {
    [Black] + seq(16, k requires 0 <= k < 16 => Hsb(Hues[k] * 360.0, 0.9, Tier(k + 1)))
  }

  /**
   * The static initialiser: the brightness variable only ever drops, to
   * 0.65 past entry 4 and to 0.5 past entry 8, so each entry gets its tier.
   */
  method BuildPalette() returns (colors: array<Color>)
    ensures fresh(colors) && colors[..] == Palette()
  {
    colors := new Color[17](_ => Black);
    colors[0] := Black;
    var i := 1;
    var brightness := 0.8;
    for h := 0 to |Hues|
      invariant i == h + 1
      invariant brightness == Tier(h)
      invariant colors[0] == Black
      invariant forall k | 0 <= k < h :: colors[k + 1] == Hsb(Hues[k] * 360.0, 0.9, Tier(k + 1))
    {
      if i > 8 {
        brightness := 0.5;
      } else if i > 4 {
        brightness := 0.65;
      }
      colors[i] := Hsb(Hues[h] * 360.0, 0.9, brightness);
      i := i + 1;
    }
    assert forall k | 0 <= k < 17 :: colors[k] == Palette()[k];
  }

  /**
   * getGroupColor: indices past the palette's end share its last colour,
   * only group 0 is black, and a negative index is out of bounds.
   */
  function GroupColor(index: int): (r: Result<Color>)
    ensures r.Err? <==> index < 0
    ensures r.Ok? ==> r.value in Palette()
    ensures index >= |Palette()| - 1 ==> r == Ok(Palette()[|Palette()| - 1])
    ensures r == Ok(Black) <==> index == 0
  {
    var i := if index < |Palette()| - 1 then index else |Palette()| - 1;
    if i < 0 then Err(IndexOutOfBounds("Index " + IntToString(i) + " out of bounds for length 17"))
    else
      assert Palette()[i] == Black <==> i == 0;
      Ok(Palette()[i])
  }

  // ----- column kinds -----

  /** The standard headers: path, sequence, row, etime and ndim. */
  const StandardHeaders: seq<string> := ["path", "sequence", "row", "etime", "ndim"]

  /** A column that can be used for grouping. */
  predicate IsGroupable(text: string)
  {
    text !in StandardHeaders && !EqualsIgnoreCase(text, "group") && ':' !in text &&
    !EqualsIgnoreCase(text, "dataset") && !ContainsStr(text, "Color") &&
    !EqualsIgnoreCase(text, "Positive") && !EqualsIgnoreCase(text, "Negative")
  }

  /** A column of measured data: a name with ':' that is no standard column. */
  predicate IsData(text: string)
  {
    text !in StandardHeaders && text != "group" && ':' in text && text != "dataset"
  }

  /** No column is both groupable and data, and the standard ones are neither. */
  lemma {:induction false} GroupableOrData(text: string)
    ensures !(IsGroupable(text) && IsData(text))
    ensures text in StandardHeaders || text == "group" || text == "dataset" ==> !IsGroupable(text) && !IsData(text)
    ensures IsData(text) <==> ':' in text && text !in StandardHeaders + ["group", "dataset"]
  {
    if text == "group" || text == "dataset" {
      assert Lower(text) == text;
    }
  }

  // ----- loading -----

  /**
   * The dataset column across the rows of loadScanTable: the first
   * non-empty name, and whether the table can be combined (every present
   * name from that one on equal to it).
   */
  method DatasetScan(ds: seq<Option<string>>) returns (first: string, combine: bool)
    ensures first == "" <==> forall j | 0 <= j < |ds| && ds[j].Some? :: ds[j].value == ""
    ensures first != "" ==> exists k | 0 <= k < |ds| :: ds[k] == Some(first) &&
                              forall j | 0 <= j < k && ds[j].Some? :: ds[j].value == ""
    ensures combine <==> Consistent(ds)
  {
    first := "";
    combine := true;
    for i := 0 to |ds|
      invariant first == "" <==> forall j | 0 <= j < i && ds[j].Some? :: ds[j].value == ""
      invariant first != "" ==> exists k | 0 <= k < i :: ds[k] == Some(first) &&
                                  forall j | 0 <= j < k && ds[j].Some? :: ds[j].value == ""
      invariant combine <==> Consistent(ds[..i])
    {
      assert ds[..i + 1][..i] == ds[..i];
      if ds[i].Some? {
        var name := ds[i].value;
        if first == "" {
          assert forall j | 0 <= j < i :: ds[..i][j] == ds[j];
          ConsistentAppend(ds[..i], ds[i]);
          first := name;
        } else if first != name {
          combine := false;
          var k :| 0 <= k < i && ds[k] == Some(first) && forall j | 0 <= j < k && ds[j].Some? :: ds[j].value == "";
          assert ds[..i + 1][k] == ds[k] && ds[..i + 1][i] == ds[i];
        } else {
          var k :| 0 <= k < i && ds[k] == Some(first) && forall j | 0 <= j < k && ds[j].Some? :: ds[j].value == "";
          if combine {
            assert forall j | 0 <= j < i :: ds[..i][j] == ds[j];
            ConsistentSame(ds[..i], k, name);
            ConsistentAppend(ds[..i], ds[i]);
          } else {
            ConsistentPrefix(ds[..i], ds[i]);
          }
        }
      } else {
        ConsistentAppend(ds[..i], ds[i]);
      }
      assert ds[..i] + [ds[i]] == ds[..i + 1];
    }
    assert ds[..|ds|] == ds;
  }

  predicate Named(d: Option<string>) { d.Some? && d.value != "" }

  /** Every present name after a non-empty one equals it. */
  predicate Consistent(ds: seq<Option<string>>)
  {
    forall j, l | 0 <= j < l < |ds| && Named(ds[j]) && ds[l].Some? :: ds[l].value == ds[j].value
  }

  /** A name that agrees with every earlier non-empty one (or a missing one) keeps the rows consistent. */
  lemma {:induction false} ConsistentAppend(ds: seq<Option<string>>, d: Option<string>)
    requires d.Some? ==> forall j | 0 <= j < |ds| && Named(ds[j]) :: ds[j].value == d.value
    ensures Consistent(ds + [d]) <==> Consistent(ds)
  {
    var e := ds + [d];
    assert forall j | 0 <= j < |ds| :: e[j] == ds[j];
  }

  lemma {:induction false} ConsistentPrefix(ds: seq<Option<string>>, d: Option<string>)
    ensures Consistent(ds + [d]) ==> Consistent(ds)
  {
    var e := ds + [d];
    assert forall j | 0 <= j < |ds| :: e[j] == ds[j];
  }

  /** In consistent rows every non-empty name equals the first one. */
  lemma {:induction false} ConsistentSame(ds: seq<Option<string>>, k: nat, name: string)
    requires k < |ds| && ds[k] == Some(name) && name != ""
    requires forall j | 0 <= j < k && ds[j].Some? :: ds[j].value == ""
    ensures Consistent(ds) ==> forall j | 0 <= j < |ds| && Named(ds[j]) :: ds[j].value == name
  {
    if Consistent(ds) {
      forall j | 0 <= j < |ds| && Named(ds[j]) ensures ds[j].value == name {
        if j > k {
          assert Named(ds[k]);
        }
      }
    }
  }

  // ----- the table -----

  class ScanTable {
    /** columnTypes: a column's name to "I", "D" or "S". */
    var columnTypes: map<string, string>
    /** columnDescriptors: a measurement's descriptor to the column name it got. */
    var columnDescriptors: map<string, string>
    /** groupNames, a TreeSet: the grouping columns in ascending order. */
    var groupNames: seq<string>
    var groupMap: map<string, map<string, int>>
    var groupSize: int
    /** The table's items in display order. */
    var items: seq<FileItem>

    ghost predicate Valid()
      reads this
    {
      Ascending(groupNames)
    }

    /** init: the standard columns' types, group an integer column among them. */
    constructor()
      ensures Valid()
      ensures columnTypes == ForcedTypes["group" := "I"] && columnDescriptors == map[] && groupNames == [] && groupMap == map[]
      ensures groupSize == 1 && items == []
    {
      columnTypes := ForcedTypes["group" := "I"];
      columnDescriptors := map[];
      groupNames := [];
      groupMap := map[];
      groupSize := 1;
      items := [];
    }

    /** The grouping state getGroups leaves, numbered from the items before. */
    ghost predicate GroupedFrom(before: seq<FileItem>)
      reads this
    {
      Grouped(groupMap, groupNames, before, items, groupSize)
    }

    /** makeGroupMap: groupMap is rebuilt, one value numbering per grouping column. */
    method MakeGroupMap()
      modifies this`groupMap
      ensures MapsFor(groupMap, groupNames, items)
    {
      groupMap := BuildGroupMaps(items, groupNames);
    }

    /** getGroups: the maps are rebuilt and every item gets its mixed-radix group. */
    method GetGroups()
      modifies this`groupMap, this`items, this`groupSize
      ensures GroupedFrom(old(items))
    {
      MakeGroupMap();
      var out, maxValue := AssignGroups(items, groupNames, groupMap);
      items := out;
      SizeAboveTop(maxValue);
      groupSize := Wrap32(maxValue + 1);
    }

    /** hitColumnGrouper: the lower-cased column joins the grouping columns, or leaves them if it was one; then the groups are redone. */
    method HitColumnGrouper(text: string)
      requires Valid()
      modifies this`groupNames, this`groupMap, this`items, this`groupSize
      ensures Valid()
      ensures forall g :: g in groupNames <==> (g in old(groupNames) <==> g != Lower(text))
      ensures GroupedFrom(old(items))
    {
      var name := Lower(text);
      if name in groupNames {
        TreeRemoveProps(groupNames, name);
        groupNames := TreeRemove(groupNames, name);
      } else {
        TreeAddProps(groupNames, name);
        groupNames := TreeAdd(groupNames, name);
      }
      GetGroups();
    }

    /**
     * getNextColumnName: a descriptor seen before keeps its column name; a
     * new one takes the name given, or else V.<n> with n one above every
     * number of a `V.<n>:` column; a `V.` column without ':' throws.
     */
    method GetNextColumnName(name: string, descriptor: string) returns (r: Result<string>)
      modifies this`columnDescriptors
      ensures descriptor in old(columnDescriptors) ==>
                r == Ok(old(columnDescriptors)[descriptor]) && columnDescriptors == old(columnDescriptors)
      ensures descriptor !in old(columnDescriptors) && name != "" ==>
                r == Ok(name) && columnDescriptors == old(columnDescriptors)[descriptor := name]
      ensures descriptor !in old(columnDescriptors) && name == "" ==>
                (r.Err? <==> HasBadVKey(columnTypes.Keys))
      ensures descriptor !in old(columnDescriptors) && name == "" && r.Ok? ==>
                exists m :: IsTop(columnTypes.Keys, m) && r.value == VName(Wrap32(m + 1))
      ensures r.Ok? ==> descriptor in columnDescriptors && columnDescriptors[descriptor] == r.value
      ensures r.Err? ==> columnDescriptors == old(columnDescriptors)
    {
      if descriptor in columnDescriptors {
        return Ok(columnDescriptors[descriptor]);
      }
      var columnName := name;
      if name == "" {
        var next := NextColumnNumber(columnTypes.Keys);
        if next.Err? {
          return Err(next.error);
        }
        columnName := VName(next.value);
      }
      columnDescriptors := columnDescriptors[descriptor := columnName];
      return Ok(columnName);
    }

    /**
     * The typing part of loadScanTable. Header names are lower-cased before
     * they key a row's fields. The row loop stops early on a field past the
     * last header (IndexOutOfBounds), on a row, etime or ndim field that
     * does not parse (a NumberFormatException, caught and logged here), and,
     * when a standard column has no field, on a blank path, no scan directory
     * or a file that cannot be read (a warning and a return); then no type is
     * recorded. Otherwise every header gets its column's type and the
     * standard columns their fixed types. `noScanDir` and `readable` stand
     * for the scan directory and the file reader.
     */
    method TypeColumns(headers: seq<string>, rows: seq<seq<string>>, noScanDir: bool, readable: string -> bool)
      returns (stop: Option<RowStop>)
      modifies this`columnTypes
      ensures stop == LoadStop(map[], headers, rows, LoadRules(Lower, IsBlank, noScanDir, readable))
      ensures stop.Some? ==> columnTypes == old(columnTypes)
      ensures stop.None? ==> !TooLong(rows, |headers|) &&
                             columnTypes == old(columnTypes) + TypeMap(headers, TypesOf(|headers|, rows))
    {
      var types;
      stop, types := LoadTypes(columnTypes, headers, rows, LoadRules(Lower, IsBlank, noScanDir, readable));
      columnTypes := types;
    }

    /** The end of loadScanTable: every item's time made relative to the earliest one. */
    method RelativeTimes()
      modifies this`items
      ensures items == ShiftDates(old(items), FirstDate(old(items)))
    {
      items := Relativize(items);
    }

    /**
     * loadScanFiles: an item for each readable file (with its path relative
     * to the scan directory), sorted by date, with times relative to the
     * earliest.
     */
    method LoadScanFiles(relPaths: seq<string>, fids: seq<Option<FidInfo>>)
      requires |relPaths| == |fids|
      modifies this`items
      ensures items == ShiftDates(SortByDate(Collected(relPaths, fids)), FirstDate(Collected(relPaths, fids)))
    {
      var firstDate := LongMax;
      var found: seq<FileItem> := [];
      for i := 0 to |fids|
        invariant found == Collected(relPaths[..i], fids[..i])
        invariant firstDate == FirstDate(found)
      {
        CollectedStep(relPaths, fids, i);
        if fids[i].Some? {
          var item := NewItem(relPaths[i], fids[i].value);
          FirstDateStep(found, item);
          if item.date < firstDate {
            firstDate := item.date;
          }
          found := found + [item];
        }
      }
      assert relPaths[..|fids|] == relPaths && fids[..|fids|] == fids;
      items := SortAndShift(found, firstDate);
    }
  }
}
