/**
 * The scan table of the processor GUI (controls/ScanTable.java): the same
 * grouping and typing as the analyst table, with grouping columns kept as
 * a list, a five-colour palette, measurement-only column naming and a
 * table whose columns are rebuilt from a header list.
 */
module ControlsScanTable {
  import opened Wrappers
  import opened Text
  import opened ScanGrouping

  datatype Color = Black | Red | Green | Orange | Blue

  const Colors: seq<Color> := [Black, Red, Green, Orange, Blue]

  /**
   * getGroupColor: groups past the palette's end share its last colour,
   * only group 0 is black, and a negative index is out of bounds.
   */
  function GroupColor(index: int): (r: Result<Color>)
    ensures r.Err? <==> index < 0
    ensures r.Ok? ==> r.value in Colors
    ensures index >= |Colors| - 1 ==> r == Ok(Blue)
    ensures r == Ok(Black) <==> index == 0
  {
    var i := if index < |Colors| - 1 then index else |Colors| - 1;
    if i < 0 then Err(IndexOutOfBounds("Index " + IntToString(i) + " out of bounds for length 5"))
    else Ok(Colors[i])
  }

  /** A descriptor of a measurement: longer than four characters and starting vol_, min_, max_ or ext_. */
  predicate MeasureType(descriptor: string)
  {
    |descriptor| > 4 && descriptor[..4] in ["vol_", "min_", "max_", "ext_"]
  }

  /** A table column: its header and the kind of value it shows ("S", "I" or "D"). */
  datatype TableColumn = TableColumn(name: string, kind: string)

  /** The seven columns updateTable always puts first. */
  const FixedColumns: seq<TableColumn> :=
    [TableColumn("path", "S"), TableColumn("sequence", "S"), TableColumn("ndim", "I"), TableColumn("etime", "I"),
     TableColumn("row", "I"), TableColumn("dataset", "S"), TableColumn("group", "I")]

  /** The columns init puts up before any table is loaded. */
  const InitialColumns: seq<TableColumn> :=
    [TableColumn("FileName", "S"), TableColumn("Sequence", "S"), TableColumn("nDim", "S"), TableColumn("Date", "I")]

  /** A header updateTable leaves out: a standard name in any case, or exactly "group". */
  predicate Skipped(header: string)
  {
    EqualsIgnoreCase(header, "path") || EqualsIgnoreCase(header, "Sequence") || EqualsIgnoreCase(header, "nDim") ||
    EqualsIgnoreCase(header, "eTime") || EqualsIgnoreCase(header, "row") || EqualsIgnoreCase(header, "dataset") ||
    EqualsIgnoreCase(header, "fid") || header == "group"
  }

  /** The kind of an extra column from its recorded type; a header without one shows strings. */
  function KindOf(types: map<string, string>, header: string): string
  {
    if header in types && types[header] == "D" then "D"
    else if header in types && types[header] == "I" then "I"
    else "S"
  }

  /** The extra columns updateTable appends, one per header kept, in header order. */
  function ExtraColumns(headers: seq<string>, types: map<string, string>): seq<TableColumn>
  {
    if headers == [] then []
    else
      var n := |headers| - 1;
      ExtraColumns(headers[..n], types) +
      (if Skipped(headers[n]) then [] else [TableColumn(headers[n], KindOf(types, headers[n]))])
  }

  /** The last header adds its column unless it is skipped. */
  lemma {:induction false} ExtraColumnsStep(headers: seq<string>, types: map<string, string>)
    requires headers != []
    ensures ExtraColumns(headers, types) ==
            ExtraColumns(headers[..|headers| - 1], types) +
            (if Skipped(headers[|headers| - 1]) then [] else [TableColumn(headers[|headers| - 1], KindOf(types, headers[|headers| - 1]))])
  {
  }

  /** The extra columns are exactly the headers that are not skipped, each with the kind of its recorded type. */
  lemma {:induction false} ExtraColumnsMembers(headers: seq<string>, types: map<string, string>)
    ensures forall c :: c in ExtraColumns(headers, types) <==>
              c.name in headers && !Skipped(c.name) && c.kind == KindOf(types, c.name)
  {
    if headers != [] {
      var n := |headers| - 1;
      var h := headers[..n];
      ExtraColumnsMembers(h, types);
      ExtraColumnsStep(headers, types);
      assert headers == h + [headers[n]];
      forall c ensures c in ExtraColumns(headers, types) <==> c.name in headers && !Skipped(c.name) && c.kind == KindOf(types, c.name) {
        if c.name in headers && c.name != headers[n] {
          assert c.name in h;
        }
      }
    }
  }

  function Names(columns: seq<TableColumn>): seq<string>
  {
    seq(|columns|, i requires 0 <= i < |columns| => columns[i].name)
  }

  /** The path loadScanFiles keeps for a file: the text from beginIndex on. */
  function Tail(path: string, beginIndex: int): string
  {
    if 0 <= beginIndex <= |path| then path[beginIndex..] else path
  }

  /** A readable file whose path is too short for substring(beginIndex). */
  predicate PathTooShort(paths: seq<string>, fids: seq<Option<FidInfo>>, beginIndex: int)
    requires |paths| == |fids|
  {
    exists i | 0 <= i < |fids| :: fids[i].Some? && !(0 <= beginIndex <= |paths[i]|)
  }

  function Tails(paths: seq<string>, beginIndex: int): seq<string>
  {
    seq(|paths|, i requires 0 <= i < |paths| => Tail(paths[i], beginIndex))
  }

  class ScanTable {
    /** columnTypes: a column's name to "I", "D" or "S". */
    var columnTypes: map<string, string>
    /** columnDescriptors: a measurement's descriptor to the column name it got. */
    var columnDescriptors: map<string, string>
    /** groupNames, a list: the grouping columns in the order given. */
    var groupNames: seq<string>
    var groupMap: map<string, map<string, int>>
    var groupSize: int
    /** fileListItems: the table's items. */
    var items: seq<FileItem>
    /** The table's columns, left to right. */
    var columns: seq<TableColumn>

    /** init: four columns for file, sequence, dimensions and date, and the standard columns' types. */
    constructor()
      ensures columnTypes == ForcedTypes["group" := "I"] && columnDescriptors == map[] && groupNames == [] && groupMap == map[]
      ensures groupSize == 1 && items == [] && columns == InitialColumns
    {
      columnTypes := ForcedTypes["group" := "I"];
      columnDescriptors := map[];
      groupNames := [];
      groupMap := map[];
      groupSize := 1;
      items := [];
      columns := InitialColumns;
    }

    /** The grouping state getGroups leaves, numbered from the items before. */
    ghost predicate GroupedFrom(before: seq<FileItem>)
      reads this
    {
      Grouped(groupMap, groupNames, before, items, groupSize)
    }

    /** makeGroupMap: groupMap is rebuilt, one value numbering per grouping column. */
    method MakeGroupMap()
      modifies this`groupMap
      ensures MapsFor(groupMap, groupNames, items)
    {
      groupMap := BuildGroupMaps(items, groupNames);
    }

    /** getGroups: the maps are rebuilt and every item gets its mixed-radix group. */
    method GetGroups()
      modifies this`groupMap, this`items, this`groupSize
      ensures GroupedFrom(old(items))
    {
      MakeGroupMap();
      var out, maxValue := AssignGroups(items, groupNames, groupMap);
      items := out;
      SizeAboveTop(maxValue);
      groupSize := Wrap32(maxValue + 1);
    }

    /**
     * getNextColumnName: "" for a descriptor that is no measurement; a
     * measurement seen before keeps its column name; a new one gets V.<n>
     * with n one above every number of a `V.<n>:` column; a `V.` column
     * without ':' throws.
     */
    method GetNextColumnName(descriptor: string) returns (r: Result<string>)
      modifies this`columnDescriptors
      ensures !MeasureType(descriptor) ==> r == Ok("") && columnDescriptors == old(columnDescriptors)
      ensures MeasureType(descriptor) && descriptor in old(columnDescriptors) ==>
                r == Ok(old(columnDescriptors)[descriptor]) && columnDescriptors == old(columnDescriptors)
      ensures MeasureType(descriptor) && descriptor !in old(columnDescriptors) ==>
                (r.Err? <==> HasBadVKey(columnTypes.Keys))
      ensures MeasureType(descriptor) && descriptor !in old(columnDescriptors) && r.Ok? ==>
                (exists m :: IsTop(columnTypes.Keys, m) && r.value == VName(Wrap32(m + 1))) &&
                columnDescriptors == old(columnDescriptors)[descriptor := r.value]
      ensures r.Err? ==> columnDescriptors == old(columnDescriptors)
    {
      var measureType := false;
      if |descriptor| > 4 {
        var start := descriptor[..4];
        if start == "vol_" || start == "min_" || start == "max_" || start == "ext_" {
          measureType := true;
        }
      }
      if !measureType {
        return Ok("");
      }
      if descriptor in columnDescriptors {
        return Ok(columnDescriptors[descriptor]);
      }
      var next := NextColumnNumber(columnTypes.Keys);
      if next.Err? {
        return Err(next.error);
      }
      var columnName := VName(next.value);
      columnDescriptors := columnDescriptors[descriptor := columnName];
      return Ok(columnName);
    }

    /**
     * updateTable: the seven fixed columns, then one column per header that
     * is not skipped, of the kind its recorded type gives; the groups are
     * then redone.
     */
    method UpdateTable(headers: seq<string>)
      modifies this`columns, this`groupMap, this`items, this`groupSize
      ensures columns == FixedColumns + ExtraColumns(headers, columnTypes)
      ensures GroupedFrom(old(items))
    {
      var cols := FixedColumns;
      for i := 0 to |headers|
        invariant cols == FixedColumns + ExtraColumns(headers[..i], columnTypes)
      {
        assert headers[..i + 1][..i] == headers[..i];
        var header := headers[i];
        if !Skipped(header) {
          var kind := "S";
          if header in columnTypes && columnTypes[header] == "D" {
            kind := "D";
          } else if header in columnTypes && columnTypes[header] == "I" {
            kind := "I";
          }
          cols := cols + [TableColumn(header, kind)];
        }
      }
      assert headers[..|headers|] == headers;
      columns := cols;
      GetGroups();
    }

    /**
     * addTableColumn: a name some column already has changes nothing;
     * otherwise its type is recorded and the table is rebuilt from the
     * current headers followed by the new one.
     */
    method AddTableColumn(newName: string, typ: string)
      modifies this`columnTypes, this`columns, this`groupMap, this`items, this`groupSize
      ensures newName in Names(old(columns)) ==>
                columnTypes == old(columnTypes) && columns == old(columns) && items == old(items) &&
                groupMap == old(groupMap) && groupSize == old(groupSize)
      ensures newName !in Names(old(columns)) ==>
                columnTypes == old(columnTypes)[newName := typ] &&
                columns == FixedColumns + ExtraColumns(Names(old(columns)) + [newName], columnTypes) &&
                GroupedFrom(old(items))
    {
      var i := 0;
      while i < |columns| && columns[i].name != newName
        invariant 0 <= i <= |columns|
        invariant forall k | 0 <= k < i :: columns[k].name != newName
      {
        i := i + 1;
      }
      if i < |columns| {
        assert Names(columns)[i] == newName;
        return;
      }
      var headers := Names(columns) + [newName];
      columnTypes := columnTypes[newName := typ];
      UpdateTable(headers);
    }

    /** A column added under a name no column has shows up after the fixed ones unless its name is skipped. */
    lemma {:induction false} AddedColumnShown(names: seq<string>, newName: string, typ: string, types: map<string, string>)
      ensures TableColumn(newName, typ) in ExtraColumns(names + [newName], types[newName := typ]) <==>
              !Skipped(newName) && (typ == "D" || typ == "I" || typ == "S")
    {
      ExtraColumnsMembers(names + [newName], types[newName := typ]);
    }

    /**
     * The typing part of loadScanTable. Header names key a row's fields as
     * written. The row loop stops early on a field past the last header
     * (IndexOutOfBounds), on a row, etime or ndim field that does not parse
     * (a NumberFormatException, which propagates to the caller), and, when a
     * standard column has no field, on an empty path, no scan directory or a
     * file that cannot be read (a return); then no type is recorded.
     * Otherwise every header gets its column's type and the standard columns
     * their fixed types. `noScanDir` and `readable` stand for the scan
     * directory and the file reader.
     */
    method TypeColumns(headers: seq<string>, rows: seq<seq<string>>, noScanDir: bool, readable: string -> bool)
      returns (stop: Option<RowStop>)
      modifies this`columnTypes
      ensures stop == LoadStop(map[], headers, rows, LoadRules(h => h, p => |p| == 0, noScanDir, readable))
      ensures stop.Some? ==> columnTypes == old(columnTypes)
      ensures stop.None? ==> !TooLong(rows, |headers|) &&
                             columnTypes == old(columnTypes) + TypeMap(headers, TypesOf(|headers|, rows))
    {
      var types;
      stop, types := LoadTypes(columnTypes, headers, rows, LoadRules(h => h, p => |p| == 0, noScanDir, readable));
      columnTypes := types;
    }

    /** The end of loadScanTable: every item's time made relative to the earliest one. */
    method RelativeTimes()
      modifies this`items
      ensures items == ShiftDates(old(items), FirstDate(old(items)))
    {
      items := Relativize(items);
    }

    /**
     * loadScanFiles: the list is cleared, then each readable file gets an
     * item whose path drops the first beginIndex characters; the items are
     * sorted by date with times relative to the earliest. A readable file
     * with a shorter path throws, leaving the list empty.
     */
    method LoadScanFiles(paths: seq<string>, fids: seq<Option<FidInfo>>, beginIndex: int) returns (err: Option<Error>)
      requires |paths| == |fids|
      modifies this`items
      ensures err.Some? <==> PathTooShort(paths, fids, beginIndex)
      ensures err.Some? ==> items == []
      ensures err.None? ==>
                items == ShiftDates(SortByDate(Collected(Tails(paths, beginIndex), fids)),
                                    FirstDate(Collected(Tails(paths, beginIndex), fids)))
    {
      items := [];
      ghost var tails := Tails(paths, beginIndex);
      var firstDate := LongMax;
      var found: seq<FileItem> := [];
      for i := 0 to |fids|
        invariant items == []
        invariant found == Collected(tails[..i], fids[..i])
        invariant firstDate == FirstDate(found)
        invariant forall k | 0 <= k < i && fids[k].Some? :: 0 <= beginIndex <= |paths[k]|
      {
        CollectedStep(tails, fids, i);
        if fids[i].Some? {
          if !(0 <= beginIndex <= |paths[i]|) {
            assert PathTooShort(paths, fids, beginIndex) by {
              assert fids[i].Some? && !(0 <= beginIndex <= |paths[i]|);
            }
            return Some(IndexOutOfBounds("begin " + IntToString(beginIndex) + ", end " + NatToString(|paths[i]|) +
                                         ", length " + NatToString(|paths[i]|)));
          }
          var item := NewItem(paths[i][beginIndex..], fids[i].value);
          assert tails[i] == paths[i][beginIndex..];
          FirstDateStep(found, item);
          if item.date < firstDate {
            firstDate := item.date;
          }
          found := found + [item];
        }
      }
      assert tails[..|fids|] == tails && fids[..|fids|] == fids;
      items := SortAndShift(found, firstDate);
      return None;
    }
  }
}
