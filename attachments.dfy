/**
 * The `--download-attachments` loop of the `cli` command: for each flat
 * record, for each of its cells in order, a cell is taken for an attachment
 * cell when it is a list whose first element contains "url"; each element
 * of such a cell is then fetched and saved under
 * `attachments/<table>/<airtable_id>/<id>__<filename>`. The HTTP client is
 * replaced by `fetchError`, which tells for each URL whether its GET fails
 * and with which message; the model records each fetch and each save.
 */
module Attachments {
  import opened Wrappers
  import opened Values

  /** The effects of the loop, in order. */
  datatype Step = Fetch(url: Value) | Save(path: string)

  /** The effects so far and the exception, if any, that ended the loop. */
  datatype Run = Run(steps: seq<Step>, fault: Option<Fault>)

  /** `a` then `b`, unless `a` raised. */
  function AndThen(a: Run, b: Run): Run
  {
    if a.fault.Some? then a else Run(a.steps + b.steps, b.fault)
  }

  lemma AndThenAssoc(a: Run, b: Run, c: Run)
    ensures AndThen(AndThen(a, b), c) == AndThen(a, AndThen(b, c))
  {
    if a.fault.None? && b.fault.None? {
      assert (a.steps + b.steps) + c.steps == a.steps + (b.steps + c.steps);
    }
  }

  /** The relative path `attachments/<table>/<record id>/<attachment id>__<filename>`. */
  function Destination(table: string, recordId: string, attachmentId: string, filename: string): string
  {
    "attachments/" + table + "/" + recordId + "/" + attachmentId + "__" + filename
  }

  /**
   * The destination of one attachment: the record's `airtable_id`, the
   * attachment's `id` and `filename` are looked up in that order, then each
   * is converted with str().
   */
  function DestinationOf(table: string, record: Dict, attachment: Value): (r: Result<string, Fault>)
    ensures r.Ok? ==>
              && Lookup(record, "airtable_id").Some? && Display(Lookup(record, "airtable_id").value).Ok?
              && Subscript(attachment, "id").Ok? && Display(Subscript(attachment, "id").value).Ok?
              && Subscript(attachment, "filename").Ok? && Display(Subscript(attachment, "filename").value).Ok?
              && r.value == Destination(table, Display(Lookup(record, "airtable_id").value).value,
                                        Display(Subscript(attachment, "id").value).value,
                                        Display(Subscript(attachment, "filename").value).value)
    ensures Lookup(record, "airtable_id").None? ==> r == Err(KeyError("airtable_id"))
  {
    match Lookup(record, "airtable_id")
    case None => Err(KeyError("airtable_id"))
    case Some(rid) =>
      match Subscript(attachment, "id")
      case Err(f) => Err(f)
      case Ok(aid) =>
        match Subscript(attachment, "filename")
        case Err(f) => Err(f)
        case Ok(name) =>
          match Display(rid)
          case Err(f) => Err(f)
          case Ok(ridText) =>
            match Display(aid)
            case Err(f) => Err(f)
            case Ok(aidText) =>
              match Display(name)
              case Err(f) => Err(f)
              case Ok(nameText) => Ok(Destination(table, ridText, aidText, nameText))
  }

  /** One element of an attachment cell: look up its URL, fetch it, then save it. */
  function AttachmentRun(table: string, record: Dict, attachment: Value, fetchError: Value -> Option<string>): Run
  {
    match Subscript(attachment, "url")
    case Err(f) => Run([], Some(f))
    case Ok(url) =>
      if fetchError(url).Some? then Run([Fetch(url)], Some(HttpError(fetchError(url).value)))
      else
        match DestinationOf(table, record, attachment)
        case Err(f) => Run([Fetch(url)], Some(f))
        case Ok(path) => Run([Fetch(url), Save(path)], None)
  }

  function ElementsRun(table: string, record: Dict, items: seq<Value>, fetchError: Value -> Option<string>): Run
    decreases |items|
  {
    if items == [] then Run([], None)
    else AndThen(AttachmentRun(table, record, items[0], fetchError), ElementsRun(table, record, items[1..], fetchError))
  }

  /**
   * A cell is an attachment cell when it is a list whose first element
   * contains `url`: only the first element is inspected, and an empty list
   * raises IndexError.
   */
  function IsAttachmentCell(cell: Value): (r: Result<bool, Fault>)
    ensures !cell.List? ==> r == Ok(false)
    ensures cell == List([]) ==> r == Err(IndexError)
    ensures cell.List? && cell.items != [] ==> r == Contains("url", cell.items[0])
    ensures cell.List? && cell.items != [] && cell.items[0].Obj? ==> r == Ok("url" in Keys(cell.items[0].entries))
  {
    if !cell.List? then Ok(false)
    else if cell.items == [] then Err(IndexError)
    else Contains("url", cell.items[0])
  }

  function CellRun(table: string, record: Dict, cell: Value, fetchError: Value -> Option<string>): Run
  {
    match IsAttachmentCell(cell)
    case Err(f) => Run([], Some(f))
    case Ok(attached) => if attached then ElementsRun(table, record, cell.items, fetchError) else Run([], None)
  }

  function CellsRun(table: string, record: Dict, cells: Dict, fetchError: Value -> Option<string>): Run
    decreases |cells|
  {
    if cells == [] then Run([], None)
    else AndThen(CellRun(table, record, cells[0].1, fetchError), CellsRun(table, record, cells[1..], fetchError))
  }

  /** The whole loop over the records of one table. */
  function RecordsRun(table: string, records: seq<Dict>, fetchError: Value -> Option<string>): Run
    decreases |records|
  {
    if records == [] then Run([], None)
    else AndThen(CellsRun(table, records[0], records[0], fetchError), RecordsRun(table, records[1..], fetchError))
  }

  /**
   * The records are handled one after another: the run over two lists of
   * records is the run over the first, then, unless it raised, the run over
   * the second. In particular a fault in one record ends the table.
   */
  lemma {:induction false} RecordsRunConcat(table: string, a: seq<Dict>, b: seq<Dict>, fetchError: Value -> Option<string>)
    ensures RecordsRun(table, a + b, fetchError) == AndThen(RecordsRun(table, a, fetchError), RecordsRun(table, b, fetchError))
    decreases |a|
  {
    if a == [] {
      assert a + b == b;
    } else {
      assert (a + b)[0] == a[0] && (a + b)[1..] == a[1..] + b;
      RecordsRunConcat(table, a[1..], b, fetchError);
      AndThenAssoc(CellsRun(table, a[0], a[0], fetchError), RecordsRun(table, a[1..], fetchError), RecordsRun(table, b, fetchError));
    }
  }

  /** The save paths among the steps, in order. */
  function Saves(steps: seq<Step>): seq<string>
  {
    if steps == [] then [] else (if steps[0].Save? then [steps[0].path] else []) + Saves(steps[1..])
  }

  /** The fetched URLs among the steps, in order. */
  function Fetches(steps: seq<Step>): seq<Value>
  {
    if steps == [] then [] else (if steps[0].Fetch? then [steps[0].url] else []) + Fetches(steps[1..])
  }

  /** The saves of two step sequences run one after the other are those of each, in order. */
  lemma {:induction false} SavesConcat(a: seq<Step>, b: seq<Step>)
    ensures Saves(a + b) == Saves(a) + Saves(b)
  {
    if a == [] {
      assert a + b == b;
    } else {
      var head := if a[0].Save? then [a[0].path] else [];
      assert (a + b)[0] == a[0];
      assert (a + b)[1..] == a[1..] + b;
      SavesConcat(a[1..], b);
      assert Saves(a + b) == head + (Saves(a[1..]) + Saves(b));
      assert head + (Saves(a[1..]) + Saves(b)) == (head + Saves(a[1..])) + Saves(b);
    }
  }

  /** The fetches of two step sequences run one after the other are those of each, in order. */
  lemma {:induction false} FetchesConcat(a: seq<Step>, b: seq<Step>)
    ensures Fetches(a + b) == Fetches(a) + Fetches(b)
  {
    if a == [] {
      assert a + b == b;
    } else {
      var head := if a[0].Fetch? then [a[0].url] else [];
      assert (a + b)[0] == a[0];
      assert (a + b)[1..] == a[1..] + b;
      FetchesConcat(a[1..], b);
      assert Fetches(a + b) == head + (Fetches(a[1..]) + Fetches(b));
      assert head + (Fetches(a[1..]) + Fetches(b)) == (head + Fetches(a[1..])) + Fetches(b);
    }
  }

  /** A cell that is not a list is never taken for attachments. */
  lemma NonListCell(table: string, record: Dict, cell: Value, fetchError: Value -> Option<string>)
    requires !cell.List?
    ensures CellRun(table, record, cell, fetchError) == Run([], None)
  {
  }

  /** An empty list cell raises IndexError before anything is fetched. */
  lemma EmptyListCell(table: string, record: Dict, fetchError: Value -> Option<string>)
    ensures CellRun(table, record, List([]), fetchError) == Run([], Some(IndexError))
  {
  }

  /** Only the first element decides: when it is an object without "url", nothing is fetched. */
  lemma FirstElementDecides(table: string, record: Dict, items: seq<Value>, fetchError: Value -> Option<string>)
    requires items != [] && items[0].Obj? && "url" !in Keys(items[0].entries)
    ensures CellRun(table, record, List(items), fetchError) == Run([], None)
  {
  }

  /**
   * A first element that is not an object: a string is tested for "url" as
   * a substring and a list for "url" as an element; when that test succeeds
   * the cell is taken for attachments and its first element then fails
   * `["url"]` with TypeError. A number, boolean or null first element makes
   * the test itself raise TypeError.
   */
  lemma FirstElementNotObject(table: string, record: Dict, items: seq<Value>, fetchError: Value -> Option<string>)
    requires items != [] && !items[0].Obj?
    ensures var run := CellRun(table, record, List(items), fetchError);
            && (items[0].Str? ==> run == if IsSubstring("url", items[0].s) then Run([], Some(TypeError)) else Run([], None))
            && (items[0].List? ==> run == if Str("url") in items[0].items then Run([], Some(TypeError)) else Run([], None))
            && (items[0].Num? || items[0].Bool? || items[0].Null? ==> run == Run([], Some(TypeError)))
  {
  }

  /** A string that merely contains "url", such as "curly", makes a cell an attachment cell that then fails. */
  lemma CurlyCell(table: string, record: Dict, fetchError: Value -> Option<string>)
    ensures IsAttachmentCell(List([Str("curly")])) == Ok(true)
    ensures CellRun(table, record, List([Str("curly")]), fetchError) == Run([], Some(TypeError))
  {
    SubstringInside("url", "c", "y", "");
    assert "c" + "url" + "y" == "curly";
    FirstElementNotObject(table, record, [Str("curly")], fetchError);
  }

  /** An element that is an object with `url`, `id` and `filename`, none of them a list or dict. */
  predicate WellFormedAttachment(a: Value)
  {
    && a.Obj?
    && Lookup(a.entries, "url").Some?
    && Lookup(a.entries, "id").Some? && Display(Lookup(a.entries, "id").value).Ok?
    && Lookup(a.entries, "filename").Some? && Display(Lookup(a.entries, "filename").value).Ok?
  }

  function UrlOf(a: Value): Value
    requires WellFormedAttachment(a)
  {
    Lookup(a.entries, "url").value
  }

  /** The destination of a well-formed attachment of a record with a displayable id. */
  function PathOf(table: string, recordId: string, a: Value): string
    requires WellFormedAttachment(a)
  {
    Destination(table, recordId, Display(Lookup(a.entries, "id").value).value,
                Display(Lookup(a.entries, "filename").value).value)
  }

  /** Every element well formed, every download succeeding. */
  predicate AllFetchable(items: seq<Value>, fetchError: Value -> Option<string>)
  {
    forall i :: 0 <= i < |items| ==> WellFormedAttachment(items[i]) && fetchError(UrlOf(items[i])).None?
  }

  /** A fetch then a save for each element, in order. */
  function FetchSaves(table: string, recordId: string, items: seq<Value>): seq<Step>
    requires forall i :: 0 <= i < |items| ==> WellFormedAttachment(items[i])
  {
    if items == [] then []
    else [Fetch(UrlOf(items[0])), Save(PathOf(table, recordId, items[0]))] + FetchSaves(table, recordId, items[1..])
  }

  /** The elements of an attachment cell whose every download succeeds run as `FetchSaves`. */
  lemma {:induction false} ElementsRunFetchSaves(table: string, record: Dict, items: seq<Value>, fetchError: Value -> Option<string>)
    requires Lookup(record, "airtable_id").Some? && Display(Lookup(record, "airtable_id").value).Ok?
    requires AllFetchable(items, fetchError)
    decreases |items|
    ensures ElementsRun(table, record, items, fetchError)
            == Run(FetchSaves(table, Display(Lookup(record, "airtable_id").value).value, items), None)
  {
    if items != [] {
      var a := items[0];
      assert WellFormedAttachment(a) && fetchError(UrlOf(a)).None?;
      assert Subscript(a, "url") == Ok(UrlOf(a));
      assert AllFetchable(items[1..], fetchError) by {
        forall i | 0 <= i < |items[1..]| ensures WellFormedAttachment(items[1..][i]) && fetchError(UrlOf(items[1..][i])).None? {
          assert items[1..][i] == items[i + 1];
        }
      }
      ElementsRunFetchSaves(table, record, items[1..], fetchError);
    }
  }

  /** The first element contributes its URL to the fetches and its destination to the saves. */
  lemma FetchSavesHead(table: string, recordId: string, items: seq<Value>)
    requires items != [] && forall i :: 0 <= i < |items| ==> WellFormedAttachment(items[i])
    ensures Fetches(FetchSaves(table, recordId, items)) == [UrlOf(items[0])] + Fetches(FetchSaves(table, recordId, items[1..]))
    ensures Saves(FetchSaves(table, recordId, items))
            == [PathOf(table, recordId, items[0])] + Saves(FetchSaves(table, recordId, items[1..]))
  {
    var first := [Fetch(UrlOf(items[0])), Save(PathOf(table, recordId, items[0]))];
    var rest := FetchSaves(table, recordId, items[1..]);
    FetchesConcat(first, rest);
    SavesConcat(first, rest);
    assert Fetches(first) == [UrlOf(items[0])];
    assert Saves(first) == [PathOf(table, recordId, items[0])];
  }

  /** `FetchSaves` holds one fetch and one save per element. */
  lemma {:induction false} FetchSavesCounts(table: string, recordId: string, items: seq<Value>)
    requires forall i :: 0 <= i < |items| ==> WellFormedAttachment(items[i])
    decreases |items|
    ensures |Fetches(FetchSaves(table, recordId, items))| == |items|
    ensures |Saves(FetchSaves(table, recordId, items))| == |items|
  {
    if items != [] {
      FetchSavesHead(table, recordId, items);
      FetchSavesCounts(table, recordId, items[1..]);
    }
  }

  /** The i-th fetch of `FetchSaves` is the i-th element's URL, and its i-th save is that element's destination. */
  lemma {:induction false} FetchSavesAt(table: string, recordId: string, items: seq<Value>, i: nat)
    requires forall k :: 0 <= k < |items| ==> WellFormedAttachment(items[k])
    requires i < |items|
    decreases i
    ensures |Fetches(FetchSaves(table, recordId, items))| == |Saves(FetchSaves(table, recordId, items))| == |items|
    ensures Fetches(FetchSaves(table, recordId, items))[i] == UrlOf(items[i])
    ensures Saves(FetchSaves(table, recordId, items))[i] == PathOf(table, recordId, items[i])
  {
    FetchSavesCounts(table, recordId, items);
    FetchSavesHead(table, recordId, items);
    if i > 0 {
      FetchSavesAt(table, recordId, items[1..], i - 1);
      assert items[1..][i - 1] == items[i];
    }
  }

  /** `FetchSaves` fetches exactly once per element, the element's URL, in element order. */
  lemma FetchSavesFetches(table: string, recordId: string, items: seq<Value>)
    requires forall i :: 0 <= i < |items| ==> WellFormedAttachment(items[i])
    ensures var fetches := Fetches(FetchSaves(table, recordId, items));
            && |fetches| == |items|
            && forall i :: 0 <= i < |items| ==> fetches[i] == UrlOf(items[i])
  {
    FetchSavesCounts(table, recordId, items);
    forall i | 0 <= i < |items| ensures Fetches(FetchSaves(table, recordId, items))[i] == UrlOf(items[i]) {
      FetchSavesAt(table, recordId, items, i);
    }
  }

  /** `FetchSaves` saves exactly once per element, at the element's destination, in element order. */
  lemma FetchSavesSaves(table: string, recordId: string, items: seq<Value>)
    requires forall i :: 0 <= i < |items| ==> WellFormedAttachment(items[i])
    ensures var saves := Saves(FetchSaves(table, recordId, items));
            && |saves| == |items|
            && forall i :: 0 <= i < |items| ==> saves[i] == PathOf(table, recordId, items[i])
  {
    FetchSavesCounts(table, recordId, items);
    forall i | 0 <= i < |items| ensures Saves(FetchSaves(table, recordId, items))[i] == PathOf(table, recordId, items[i]) {
      FetchSavesAt(table, recordId, items, i);
    }
  }

  /**
   * A list cell whose first element is an object with "url" is an
   * attachment cell: with every download succeeding, each element is
   * fetched and then saved, so there is exactly one fetch of the element's
   * URL and one destination per element, in element order.
   */
  lemma AttachmentCellPaths(table: string, record: Dict, items: seq<Value>, fetchError: Value -> Option<string>)
    requires items != []
    requires Lookup(record, "airtable_id").Some? && Display(Lookup(record, "airtable_id").value).Ok?
    requires AllFetchable(items, fetchError)
    ensures var run := CellRun(table, record, List(items), fetchError);
            var rid := Display(Lookup(record, "airtable_id").value).value;
            && run.fault.None?
            && run.steps == FetchSaves(table, rid, items)
            && |Fetches(run.steps)| == |items| && |Saves(run.steps)| == |items|
            && forall i :: 0 <= i < |items| ==>
                 Fetches(run.steps)[i] == UrlOf(items[i]) && Saves(run.steps)[i] == PathOf(table, rid, items[i])
  {
    assert WellFormedAttachment(items[0]);
    assert "url" in Keys(items[0].entries);
    ElementsRunFetchSaves(table, record, items, fetchError);
    FetchSavesFetches(table, Display(Lookup(record, "airtable_id").value).value, items);
    FetchSavesSaves(table, Display(Lookup(record, "airtable_id").value).value, items);
  }

  /** Downloads one attachment: looks up its URL, fetches it, builds its destination and saves it there. */
  method DownloadOne(table: string, record: Dict, attachment: Value, fetchError: Value -> Option<string>)
    returns (steps: seq<Step>, fault: Option<Fault>)
    ensures Run(steps, fault) == AttachmentRun(table, record, attachment, fetchError)
  {
    steps := [];
    var url := Subscript(attachment, "url");
    if url.Err? {
      return [], Some(url.error);
    }
    steps := [Fetch(url.value)];
    var failure := fetchError(url.value);
    if failure.Some? {
      return steps, Some(HttpError(failure.value));
    }
    var destination := DestinationOf(table, record, attachment);
    if destination.Err? {
      return steps, Some(destination.error);
    }
    steps := steps + [Save(destination.value)];
    fault := None;
  }

  /** The loop over the elements of an attachment cell. */
  method DownloadElements(table: string, record: Dict, items: seq<Value>, fetchError: Value -> Option<string>)
    returns (steps: seq<Step>, fault: Option<Fault>)
    ensures Run(steps, fault) == ElementsRun(table, record, items, fetchError)
  {
    steps := [];
    var k := 0;
    while k < |items|
      invariant 0 <= k <= |items|
      invariant ElementsRun(table, record, items, fetchError)
                == AndThen(Run(steps, None), ElementsRun(table, record, items[k..], fetchError))
    {
      assert items[k..][1..] == items[k + 1..];
      var one := AttachmentRun(table, record, items[k], fetchError);
      AndThenAssoc(Run(steps, None), one, ElementsRun(table, record, items[k + 1..], fetchError));
      var more, failed := DownloadOne(table, record, items[k], fetchError);
      steps := steps + more;
      if failed.Some? {
        return steps, failed;
      }
      k := k + 1;
    }
    assert items[k..] == [];
    assert steps + [] == steps;
    fault := None;
  }

  /** One cell: the attachment test, then its elements when it passes. */
  method DownloadCell(table: string, record: Dict, cell: Value, fetchError: Value -> Option<string>)
    returns (steps: seq<Step>, fault: Option<Fault>)
    ensures Run(steps, fault) == CellRun(table, record, cell, fetchError)
  {
    if !cell.List? {
      return [], None;
    }
    if |cell.items| == 0 {
      return [], Some(IndexError);
    }
    var attached := Contains("url", cell.items[0]);
    if attached.Err? {
      return [], Some(attached.error);
    }
    if !attached.value {
      return [], None;
    }
    steps, fault := DownloadElements(table, record, cell.items, fetchError);
  }

  /** The loop over the cells of one record, in insertion order. */
  method DownloadRecord(table: string, record: Dict, fetchError: Value -> Option<string>)
    returns (steps: seq<Step>, fault: Option<Fault>)
    ensures Run(steps, fault) == CellsRun(table, record, record, fetchError)
  {
    steps := [];
    var j := 0;
    while j < |record|
      invariant 0 <= j <= |record|
      invariant CellsRun(table, record, record, fetchError)
                == AndThen(Run(steps, None), CellsRun(table, record, record[j..], fetchError))
    {
      assert record[j..][1..] == record[j + 1..];
      var one := CellRun(table, record, record[j].1, fetchError);
      AndThenAssoc(Run(steps, None), one, CellsRun(table, record, record[j + 1..], fetchError));
      var more, failed := DownloadCell(table, record, record[j].1, fetchError);
      steps := steps + more;
      if failed.Some? {
        return steps, failed;
      }
      j := j + 1;
    }
    assert record[j..] == [];
    assert steps + [] == steps;
    fault := None;
  }

  /** The loop over the records of one table. */
  method DownloadAttachments(table: string, records: seq<Dict>, fetchError: Value -> Option<string>)
    returns (steps: seq<Step>, fault: Option<Fault>)
    ensures Run(steps, fault) == RecordsRun(table, records, fetchError)
  {
    steps := [];
    var i := 0;
    while i < |records|
      invariant 0 <= i <= |records|
      invariant RecordsRun(table, records, fetchError)
                == AndThen(Run(steps, None), RecordsRun(table, records[i..], fetchError))
    {
      assert records[i..][1..] == records[i + 1..];
      var one := CellsRun(table, records[i], records[i], fetchError);
      AndThenAssoc(Run(steps, None), one, RecordsRun(table, records[i + 1..], fetchError));
      var more, failed := DownloadRecord(table, records[i], fetchError);
      steps := steps + more;
      if failed.Some? {
        return steps, failed;
      }
      i := i + 1;
    }
    assert records[i..] == [];
    assert steps + [] == steps;
    fault := None;
  }
}
