/**
 * What `save_to_csv` decides: which rows and columns it writes and where, or
 * that it fails (every exception it raises is caught and becomes None).
 * The directory creation, pandas and the file write are not modelled; their
 * failure is an input.
 */
module Persist {
  import opened Wrappers
  import opened JsonValue

  const DataDirectory: string := "Data"

  /** The columns kept in the CSV, in this order, when present. */
  const RequiredColumns: seq<string> := [
    "symbol", "identifier", "previousClose", "lastPrice", "iep",
    "change", "pChange", "finalQuantity", "totalTurnover", "yearHigh", "yearLow"
  ]

  /** No required column is listed twice. */
  lemma RequiredColumnsAreDistinct()
    ensures NoDup(RequiredColumns)
  {
  }

  /** What a successful save reports: the path written and the CSV header. */
  datatype SavedCsv = SavedCsv(path: string, header: seq<string>)

  predicate NoDup(s: seq<string>)
  {
    forall i, j :: 0 <= i < j < |s| ==> s[i] != s[j]
  }

  /** Position of x in s. */
  function IndexOf(s: seq<string>, x: string): (k: nat)
    requires x in s
    ensures k < |s| && s[k] == x
    ensures forall j :: 0 <= j < k ==> s[j] != x
  {
    if s[0] == x then 0 else 1 + IndexOf(s[1..], x)
  }

  /** Every element of s is in cols, and s lists them in the order cols does. */
  predicate InColumnOrder(cols: seq<string>, s: seq<string>)
  {
    && (forall c :: c in s ==> c in cols)
    && forall i, j :: 0 <= i < j < |s| ==> s[i] in cols && s[j] in cols && IndexOf(cols, s[i]) < IndexOf(cols, s[j])
  }

  /** A row has a `metadata` entry that is an object. */
  predicate HasMetadata(item: Json)
  {
    item.JObj? && "metadata" in item.fields && item.fields["metadata"].JObj?
  }

  /** `[item['metadata'] for item in items]`, or None when one of them raises. */
  function MetadataRows(items: seq<Json>): (r: Option<seq<map<string, Json>>>)
    ensures r.Some? <==> forall i :: 0 <= i < |items| ==> HasMetadata(items[i])
    ensures r.Some? ==> |r.value| == |items|
    ensures r.Some? ==> forall i :: 0 <= i < |items| ==> r.value[i] == items[i].fields["metadata"].fields
  {
    if items == [] then Some([])
    else if !HasMetadata(items[0]) then None
    else match MetadataRows(items[1..])
      case None => None
      case Some(rest) => Some([items[0].fields["metadata"].fields] + rest)
  }

  /** The DataFrame's columns: every key of every row. */
  function KeyUnion(rows: seq<map<string, Json>>): (keys: set<string>)
    // every row's keys are columns, and every column comes from some row
    ensures forall i :: 0 <= i < |rows| ==> rows[i].Keys <= keys
    ensures forall k :: k in keys ==> exists i :: 0 <= i < |rows| && k in rows[i]
    ensures rows == [] ==> keys == {}
  {
    set i, k | 0 <= i < |rows| && k in rows[i] :: k
  }

  /** `[col for col in cols if col in present]` */
  function KeepPresent(cols: seq<string>, present: set<string>): (r: seq<string>)
    ensures forall c :: c in r <==> c in cols && c in present
    ensures NoDup(cols) ==> NoDup(r)
    ensures NoDup(cols) ==> InColumnOrder(cols, r)
  {
    if cols == [] then []
    else
      var rest := KeepPresent(cols[1..], present);
      if cols[0] in present then [cols[0]] + rest else rest
  }

  /**
   * The sequence `data['data']` iterates over. A list gives its elements;
   * iterating a dict or a string gives strings, on which `['metadata']`
   * raises, so only an empty one gets through; anything else is not iterable.
   */
  function DataItems(snapshot: Json): (r: Option<seq<Json>>)
    // `data['data']` raises KeyError on anything but an object with a `data` entry
    ensures !snapshot.JObj? || "data" !in snapshot.fields ==> r.None?
    // a list is iterated element by element
    ensures IsListSnapshot(snapshot) ==> r == Some(snapshot.fields["data"].items)
    // anything else gets through only when it iterates over nothing
    ensures !IsListSnapshot(snapshot) && r.Some? ==> r.value == [] && !Truthy(snapshot.fields["data"])
  {
    if !snapshot.JObj? || "data" !in snapshot.fields then None
    else match snapshot.fields["data"]
      case JList(items) => Some(items)
      case JObj(m) => if m == map[] then Some([]) else None
      case JStr(s) => if s == "" then Some([]) else None
      case _ => None
  }

  /** The header `save_to_csv` writes for this payload, or None if it raises first. */
  function SavedColumns(snapshot: Json): (r: Option<seq<string>>)
    // past the rows exactly when every item that `data` iterates over has a metadata object
    ensures r.Some? <==>
      DataItems(snapshot).Some? && forall i :: 0 <= i < |DataItems(snapshot).value| ==> HasMetadata(DataItems(snapshot).value[i])
    // the header is drawn from the required columns, once each, in their order
    ensures r.Some? ==> NoDup(r.value) && InColumnOrder(RequiredColumns, r.value)
    ensures r.Some? ==> forall c :: c in r.value ==> c in RequiredColumns
  {
    RequiredColumnsAreDistinct();
    match DataItems(snapshot)
    case None => None
    case Some(items) =>
      match MetadataRows(items)
      case None => None
      case Some(rows) => Some(KeepPresent(RequiredColumns, KeyUnion(rows)))
  }

  /** `os.path.join(directory, name)` on POSIX. */
  function JoinPath(directory: string, name: string): (path: string)
    // the path always ends with the name
    ensures |name| <= |path| && path[|path| - |name|..] == name
    // an absolute name discards the directory
    ensures |name| > 0 && name[0] == '/' ==> path == name
    // a relative name goes under the directory, with exactly one separator between them
    ensures (|name| == 0 || name[0] != '/') && directory != "" ==>
      |directory| + |name| <= |path| <= |directory| + 1 + |name| &&
      path[..|directory|] == directory && path[|path| - |name| - 1] == '/'
  {
    if |name| > 0 && name[0] == '/' then name
    else if directory == "" || directory[|directory| - 1] == '/' then directory + name
    else directory + "/" + name
  }

  /**
   * `save_to_csv(data, filename)`; storageOk says whether creating the data
   * directory and writing the file succeed.
   */
  function SaveToCsv(snapshot: Json, filename: string, storageOk: bool): (r: Option<SavedCsv>)
    // a failing directory creation or write always ends in None
    ensures r.Some? ==> storageOk
    // for a list of items: saved exactly when storage works and every item carries a metadata object
    ensures IsListSnapshot(snapshot) ==>
      var items := snapshot.fields["data"].items;
      (r.Some? <==> storageOk && forall i :: 0 <= i < |items| ==> HasMetadata(items[i]))
    // the header: exactly the required columns some row has, once each, in the required order
    ensures r.Some? && IsListSnapshot(snapshot) ==>
      var items := snapshot.fields["data"].items;
      && (forall c :: c in r.value.header <==>
            c in RequiredColumns && exists i :: 0 <= i < |items| && c in items[i].fields["metadata"].fields)
      && NoDup(r.value.header)
      && InColumnOrder(RequiredColumns, r.value.header)
    // anything else gets through only when `data` iterates over nothing, and then there are no columns
    ensures r.Some? && !IsListSnapshot(snapshot) ==> r.value.header == []
    // the file goes under Data/ unless the name is absolute
    ensures r.Some? && (filename == "" || filename[0] != '/') ==> r.value.path == DataDirectory + "/" + filename
    ensures r.Some? ==> r.value.path != ""
  {
    ColumnRule(snapshot);
    DataDirectoryJoin(filename);
    if !storageOk then None
    else match SavedColumns(snapshot)
      case None => None
      case Some(header) => Some(SavedCsv(JoinPath(DataDirectory, filename), header))
  }

  /** `data` is an object whose `data` entry is a list. */
  predicate IsListSnapshot(snapshot: Json)
  {
    snapshot.JObj? && "data" in snapshot.fields && snapshot.fields["data"].JList?
  }

  /**
   * For a downloaded payload the save gets past the rows exactly when every
   * item carries a `metadata` object, and then the header is the required
   * columns that some row has, without repeats, in the required order; every
   * other key is dropped.
   */
  lemma ColumnRule(snapshot: Json)
    ensures IsListSnapshot(snapshot) ==>
      var items := snapshot.fields["data"].items;
      (SavedColumns(snapshot).Some? <==> forall i :: 0 <= i < |items| ==> HasMetadata(items[i]))
    ensures IsListSnapshot(snapshot) && SavedColumns(snapshot).Some? ==>
      var items := snapshot.fields["data"].items;
      var header := SavedColumns(snapshot).value;
      && (forall c :: c in header <==>
            c in RequiredColumns && exists i :: 0 <= i < |items| && c in items[i].fields["metadata"].fields)
      && NoDup(header)
      && InColumnOrder(RequiredColumns, header)
    ensures !IsListSnapshot(snapshot) && SavedColumns(snapshot).Some? ==> SavedColumns(snapshot).value == []
  {
    if IsListSnapshot(snapshot) {
      var items := snapshot.fields["data"].items;
      var rows := MetadataRows(items);
      if rows.Some? {
        forall c
          ensures c in KeyUnion(rows.value) <==> exists i :: 0 <= i < |items| && c in items[i].fields["metadata"].fields
        {
          if exists i :: 0 <= i < |items| && c in items[i].fields["metadata"].fields {
            var i :| 0 <= i < |items| && c in items[i].fields["metadata"].fields;
            assert c in rows.value[i];
          }
        }
      }
    } else if SavedColumns(snapshot).Some? {
      EmptyIterationHasNoColumns(snapshot);
    }
  }

  /** A payload whose `data` is not a list is saved only when it iterates over nothing, and then without columns. */
  lemma EmptyIterationHasNoColumns(snapshot: Json)
    requires !IsListSnapshot(snapshot) && SavedColumns(snapshot).Some?
    ensures SavedColumns(snapshot).value == []
  {
    var items := DataItems(snapshot).value;
    assert items == [];
    var rows := MetadataRows(items).value;
    assert KeyUnion(rows) == {};
    var header := SavedColumns(snapshot).value;
    assert header == KeepPresent(RequiredColumns, KeyUnion(rows));
    RequiredColumnsAreDistinct();
    KeepPresentIsUnique(RequiredColumns, {}, []);
  }

  /** An item without `metadata` makes the whole save fail, whatever the other items hold. */
  lemma MissingMetadataFails(snapshot: Json, filename: string, storageOk: bool, i: nat)
    requires IsListSnapshot(snapshot)
    requires i < |snapshot.fields["data"].items|
    requires var item := snapshot.fields["data"].items[i]; item.JObj? && "metadata" !in item.fields
    ensures SaveToCsv(snapshot, filename, storageOk) == None
  {
    assert !HasMetadata(snapshot.fields["data"].items[i]);
  }

  /** Two column-ordered listings of the same columns start with the same column. */
  lemma SameFirstColumn(cols: seq<string>, a: seq<string>, b: seq<string>)
    requires NoDup(cols) && InColumnOrder(cols, a) && InColumnOrder(cols, b)
    requires a != [] && b != []
    requires a[0] in b && b[0] in a
    ensures a[0] == b[0]
  {
    var i :| 0 <= i < |a| && a[i] == b[0];
    var j :| 0 <= j < |b| && b[j] == a[0];
  }

  /** Without repeats, the tail holds exactly the other elements. */
  lemma TailElements(cols: seq<string>, a: seq<string>)
    requires NoDup(a) && a != [] && InColumnOrder(cols, a)
    ensures forall c :: c in a[1..] <==> c in a && c != a[0]
    ensures NoDup(a[1..]) && InColumnOrder(cols, a[1..])
  {
    assert forall i :: 0 <= i < |a| - 1 ==> a[1..][i] == a[i + 1];
    forall c | c in a && c != a[0]
      ensures c in a[1..]
    {
      var k :| 0 <= k < |a| && a[k] == c;
      assert a[1..][k - 1] == c;
    }
  }

  /**
   * Only one sequence lists a given set of columns once each in column order:
   * so the header is fixed by which required columns the rows have.
   */
  lemma {:induction false} ColumnOrderIsUnique(cols: seq<string>, a: seq<string>, b: seq<string>)
    requires NoDup(cols) && NoDup(a) && NoDup(b)
    requires InColumnOrder(cols, a) && InColumnOrder(cols, b)
    requires forall c :: c in a <==> c in b
    ensures a == b
  {
    assert a != [] ==> a[0] in b;
    assert b != [] ==> b[0] in a;
    if a != [] && b != [] {
      SameFirstColumn(cols, a, b);
      TailElements(cols, a);
      TailElements(cols, b);
      ColumnOrderIsUnique(cols, a[1..], b[1..]);
      assert a == [a[0]] + a[1..] && b == [b[0]] + b[1..];
    }
  }

  /** KeepPresent is the one column-ordered listing of the present columns. */
  lemma KeepPresentIsUnique(cols: seq<string>, present: set<string>, expected: seq<string>)
    requires NoDup(cols) && NoDup(expected) && InColumnOrder(cols, expected)
    requires forall c :: c in expected <==> c in cols && c in present
    ensures KeepPresent(cols, present) == expected
  {
    ColumnOrderIsUnique(cols, KeepPresent(cols, present), expected);
  }

  /** symbol and lastPrice, with keys outside the required list, give the header symbol,lastPrice. */
  lemma ExampleHeader(present: set<string>)
    requires "symbol" in present && "lastPrice" in present
    requires forall c :: c in present ==> c == "symbol" || c == "lastPrice" || c !in RequiredColumns
    ensures KeepPresent(RequiredColumns, present) == ["symbol", "lastPrice"]
  {
    var expected := ["symbol", "lastPrice"];
    RequiredColumnsAreDistinct();
    assert InColumnOrder(RequiredColumns, expected) by {
      assert RequiredColumns[0] == "symbol" && RequiredColumns[3] == "lastPrice";
      assert IndexOf(RequiredColumns, "symbol") == 0;
    }
    KeepPresentIsUnique(RequiredColumns, present, expected);
  }

  /** A single item with a metadata object gives that object as the one row. */
  lemma SingleItemRows(row: map<string, Json>)
    ensures MetadataRows([JObj(map["metadata" := JObj(row)])]) == Some([row])
  {
    var rows := MetadataRows([JObj(map["metadata" := JObj(row)])]);
    assert rows.value[0] == row && |rows.value| == 1;
    assert rows.value == [row];
  }

  /** The columns of a one-row frame are that row's keys. */
  lemma SingleRowKeys(row: map<string, Json>)
    ensures KeyUnion([row]) == row.Keys
  {
    forall k | k in row ensures k in KeyUnion([row]) { assert k in [row][0]; }
  }

  /** The header for `{"data":[{"metadata":{"symbol":…,"lastPrice":…,"unused":…}}]}`. */
  lemma SingleRowHeader(symbol: Json, lastPrice: Json, unused: Json)
    ensures
      var row := map["symbol" := symbol, "lastPrice" := lastPrice, "unused" := unused];
      var snapshot := JObj(map["data" := JList([JObj(map["metadata" := JObj(row)])])]);
      SavedColumns(snapshot) == Some(["symbol", "lastPrice"])
  {
    var row := map["symbol" := symbol, "lastPrice" := lastPrice, "unused" := unused];
    var item := JObj(map["metadata" := JObj(row)]);
    var snapshot := JObj(map["data" := JList([item])]);
    assert DataItems(snapshot) == Some([item]);
    SingleItemRows(row);
    SingleRowKeys(row);
    assert "unused" !in RequiredColumns;
    ExampleHeader(row.Keys);
  }

  /** A file name that is not an absolute path is joined under `Data/`; the path is never empty. */
  lemma DataDirectoryJoin(filename: string)
    ensures filename == "" || filename[0] != '/' ==> JoinPath(DataDirectory, filename) == DataDirectory + "/" + filename
    ensures JoinPath(DataDirectory, filename) != ""
  {
  }
}
