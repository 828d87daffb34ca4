/** The report half of `main`: the fetched events are turned into report
    items, grouped by URL in a dictionary that keeps first-seen order, and
    `write_to_excel` sizes every column to its longest cell. */
module WaasReport {
  import opened Util
  import ReportTime
  import opened WaasFetch

  /** The dictionary `main` appends for one event. */
  datatype Item = Item(time: string, attackType: string, endpoint: string, srcIp: string, path: string, image: string)

  /** The item of one event: the time converted by `parse_time`, the
      endpoint as method and path joined by a space. `None` when the time
      does not parse, where the script raises `ValueError` and stops. */
  function ItemOf(e: RawEvent): (r: Option<Item>)
    ensures r.None? <==> ReportTime.ParseTime(e.time).None?
    ensures r.Some? ==> r.value.time == ReportTime.ParseTime(e.time).value && |r.value.time| == 19
    ensures r.Some? ==> r.value.attackType == e.kind && r.value.srcIp == e.subnet && r.value.image == e.imageName
    ensures r.Some? ==> r.value.endpoint == e.httpMethod + [' '] + r.value.path && r.value.path == e.urlPath
  {
    match ReportTime.ParseTime(e.time)
    case None => None
    case Some(t) => Some(Item(t, e.kind, e.httpMethod + " " + e.urlPath, e.subnet, e.urlPath, e.imageName))
  }

  // ---------------------------------------------------------------------
  // Grouping by URL
  // ---------------------------------------------------------------------

  /** The `reports` dictionary: its keys in insertion order, and the items
      under each key. */
  datatype Grouping = Grouping(urls: seq<string>, groups: map<string, seq<Item>>)

  /** The keys listed are exactly the keys held, each once, and no key holds
      an empty list. */
  ghost predicate WellFormed(g: Grouping) {
    && NoDuplicates(g.urls)
    && (forall u :: u in g.groups <==> u in g.urls)
    && (forall u :: u in g.groups ==> g.groups[u] != [])
  }

  /** One pass of the grouping loop: create the key if it is new, then
      append the item under it. */
  function AddItem(g: Grouping, url: string, item: Item): (r: Grouping)
    ensures r.urls == if url in g.groups then g.urls else g.urls + [url]
    ensures url in r.groups && r.groups[url] == (if url in g.groups then g.groups[url] else []) + [item]
    ensures forall u :: u != url ==> (u in r.groups <==> u in g.groups)
    ensures forall u :: u in g.groups && u != url ==> r.groups[u] == g.groups[u]
  {
    var keyed := if url in g.groups then g else Grouping(g.urls + [url], g.groups[url := []]);
    Grouping(keyed.urls, keyed.groups[url := keyed.groups[url] + [item]])
  }

  /** The dictionary after all events, with `itemOf` building each item;
      `None` when it fails for some event. */
  function Grouped(events: seq<RawEvent>, itemOf: RawEvent -> Option<Item>): (r: Option<Grouping>)
    ensures r.Some? ==> |r.value.urls| <= |events|
    decreases |events|
  {
    if events == [] then Some(Grouping([], map[]))
    else
      var n := |events| - 1;
      match Grouped(events[..n], itemOf)
      case None => None
      case Some(g) =>
        match itemOf(events[n])
        case None => None
        case Some(item) => Some(AddItem(g, events[n].url, item))
  }

  /** The URL of every event, in order. */
  function UrlsOf(events: seq<RawEvent>): seq<string>
    decreases |events|
  {
    if events == [] then [] else UrlsOf(events[..|events| - 1]) + [events[|events| - 1].url]
  }

  /** Reference definition: the items of the events whose URL is `url`, in
      event order. */
  function Matching(events: seq<RawEvent>, url: string, itemOf: RawEvent -> Option<Item>): seq<Item>
    decreases |events|
  {
    if events == [] then []
    else
      var n := |events| - 1;
      Matching(events[..n], url, itemOf)
        + (if events[n].url == url && itemOf(events[n]).Some? then [itemOf(events[n]).value] else [])
  }

  /** The loop of `main` over `all_events`, with `itemOf` building each
      event's item. */
  method GroupByUrl(events: seq<RawEvent>, itemOf: RawEvent -> Option<Item>) returns (reports: Option<Grouping>)
    ensures reports == Grouped(events, itemOf)
  {
    var urls: seq<string> := [];
    var groups: map<string, seq<Item>> := map[];
    for i := 0 to |events|
      invariant Grouped(events[..i], itemOf) == Some(Grouping(urls, groups))
    {
      assert events[..i + 1][..i] == events[..i];
      var url := events[i].url;
      if url !in groups {
        urls := urls + [url];
        groups := groups[url := []];
      }
      var item := itemOf(events[i]);
      if item.None? {
        GroupedFailureIsFinal(events, i + 1, itemOf);
        return None;
      }
      groups := groups[url := groups[url] + [item.value]];
    }
    assert events[..|events|] == events;
    reports := Some(Grouping(urls, groups));
  }

  /** The grouping as `main` does it, converting each time with
      `parse_time`. */
  method GroupReports(events: seq<RawEvent>) returns (reports: Option<Grouping>)
    ensures reports == Grouped(events, ItemOf)
  {
    reports := GroupByUrl(events, ItemOf);
  }

  /** Grouping fails exactly when building some event's item fails. */
  lemma {:induction false} GroupedFails(events: seq<RawEvent>, itemOf: RawEvent -> Option<Item>)
    ensures Grouped(events, itemOf).None? <==> exists i :: 0 <= i < |events| && itemOf(events[i]).None?
    decreases |events|
  {
    if events != [] {
      var n := |events| - 1;
      GroupedFails(events[..n], itemOf);
      if Grouped(events[..n], itemOf).None? {
        var i :| 0 <= i < n && itemOf(events[..n][i]).None?;
        assert itemOf(events[i]).None?;
      } else if Grouped(events, itemOf).None? {
        assert itemOf(events[n]).None?;
      } else {
        forall i | 0 <= i < |events|
          ensures itemOf(events[i]).Some?
        {
          if i < n {
            assert events[i] == events[..n][i];
          }
        }
      }
    }
  }

  lemma GroupedFailureIsFinal(events: seq<RawEvent>, k: nat, itemOf: RawEvent -> Option<Item>)
    requires k <= |events| && Grouped(events[..k], itemOf).None?
    ensures Grouped(events, itemOf).None?
  {
    GroupedFails(events[..k], itemOf);
    var i :| 0 <= i < k && itemOf(events[..k][i]).None?;
    assert itemOf(events[i]).None?;
    GroupedFails(events, itemOf);
  }

  /** The items the dictionary holds under `url`; none when it is not a key. */
  function ItemsAt(g: Grouping, url: string): seq<Item> {
    if url in g.groups then g.groups[url] else []
  }

  /** One pass keeps the dictionary well formed. */
  lemma AddItemWellFormed(g: Grouping, url: string, item: Item)
    requires WellFormed(g)
    ensures WellFormed(AddItem(g, url, item))
  {
  }

  /** One pass adds the URL to the keys exactly when it is new. */
  lemma AddItemUrls(g: Grouping, url: string, item: Item)
    requires url in g.groups <==> url in g.urls
    ensures AddItem(g, url, item).urls == AddUnseen(g.urls, [url])
  {
    assert [url][1..] == [];
  }

  /** When every item is built, the keys are listed once each and hold
      non-empty lists. */
  lemma {:induction false} GroupedWellFormed(events: seq<RawEvent>, itemOf: RawEvent -> Option<Item>)
    requires Grouped(events, itemOf).Some?
    ensures WellFormed(Grouped(events, itemOf).value)
    decreases |events|
  {
    if events != [] {
      var n := |events| - 1;
      GroupedWellFormed(events[..n], itemOf);
      GroupedLast(events, itemOf);
      AddItemWellFormed(Grouped(events[..n], itemOf).value, events[n].url, itemOf(events[n]).value);
    }
  }

  /** ... and the keys are the distinct URLs in the order they first occur. */
  lemma {:induction false} GroupedUrls(events: seq<RawEvent>, itemOf: RawEvent -> Option<Item>)
    requires Grouped(events, itemOf).Some?
    ensures Grouped(events, itemOf).value.urls == Dedup(UrlsOf(events))
    decreases |events|
  {
    if events != [] {
      var n := |events| - 1;
      var prev := events[..n];
      var g := Grouped(prev, itemOf).value;
      var url := events[n].url;
      GroupedUrls(prev, itemOf);
      GroupedWellFormed(prev, itemOf);
      GroupedLast(events, itemOf);
      AddItemUrls(g, url, itemOf(events[n]).value);
      AddUnseenAppend([], UrlsOf(prev), [url]);
    }
  }

  /** The last event is added to the grouping of the ones before it. */
  lemma GroupedLast(events: seq<RawEvent>, itemOf: RawEvent -> Option<Item>)
    requires events != [] && Grouped(events, itemOf).Some?
    ensures var n := |events| - 1;
      && Grouped(events[..n], itemOf).Some?
      && itemOf(events[n]).Some?
      && Grouped(events, itemOf).value == AddItem(Grouped(events[..n], itemOf).value, events[n].url, itemOf(events[n]).value)
  {
  }

  /** ... and under every URL the dictionary holds exactly the items of
      that URL's events, in event order. */
  lemma {:induction false} GroupedItems(events: seq<RawEvent>, itemOf: RawEvent -> Option<Item>, url: string)
    requires Grouped(events, itemOf).Some?
    ensures ItemsAt(Grouped(events, itemOf).value, url) == Matching(events, url, itemOf)
    decreases |events|
  {
    if events != [] {
      var n := |events| - 1;
      GroupedItems(events[..n], itemOf, url);
    }
  }

  // ---------------------------------------------------------------------
  // Column widths of the sheet
  // ---------------------------------------------------------------------

  /** The item keys `write_to_excel` measures, one per column. */
  const Headers: seq<string> := ["url", "time", "attack_type", "endpoint", "src_ip", "path", "image"]

  /** The cells of the row written for one item under `url`. */
  function Cells(url: string, item: Item): (r: seq<string>)
    ensures |r| == |Headers| && r[0] == url
  {
    [url, item.time, item.attackType, item.endpoint, item.srcIp, item.path, item.image]
  }

  /** The rows of one URL's items, in order. */
  function GroupRows(url: string, items: seq<Item>): (rows: seq<seq<string>>)
    ensures |rows| == |items|
    decreases |items|
  {
    if items == [] then []
    else GroupRows(url, items[..|items| - 1]) + [Cells(url, items[|items| - 1])]
  }

  /** The rows of the keys `urls`, key after key. */
  function RowsOf(urls: seq<string>, g: Grouping): seq<seq<string>>
    decreases |urls|
  {
    if urls == [] then []
    else
      var n := |urls| - 1;
      RowsOf(urls[..n], g) + GroupRows(urls[n], ItemsAt(g, urls[n]))
  }

  /** Every row of the sheet below the header, in the order written. */
  function Rows(g: Grouping): seq<seq<string>> {
    RowsOf(g.urls, g)
  }

  /** `max_lengths` before any row: the length of each key. */
  function HeaderLengths(): seq<nat> {
    seq(|Headers|, c requires 0 <= c < |Headers| => |Headers[c]|)
  }

  function Max(a: nat, b: nat): nat {
    if a < b then b else a
  }

  /** `max_lengths` after one more row. */
  function Widen(lengths: seq<nat>, row: seq<string>): (r: seq<nat>)
    ensures |r| == |lengths|
    ensures forall c :: 0 <= c < |lengths| ==> lengths[c] <= r[c] && (c < |row| ==> |row[c]| <= r[c])
    ensures forall c :: 0 <= c < |lengths| ==> r[c] == lengths[c] || (c < |row| && r[c] == |row[c]|)
  {
    seq(|lengths|, c requires 0 <= c < |lengths| => if c < |row| then Max(lengths[c], |row[c]|) else lengths[c])
  }

  /** `max_lengths` after `rows`. */
  function MaxLengths(rows: seq<seq<string>>): (r: seq<nat>)
    ensures |r| == |Headers|
    decreases |rows|
  {
    if rows == [] then HeaderLengths()
    else Widen(MaxLengths(rows[..|rows| - 1]), rows[|rows| - 1])
  }

  /** The widths given to `set_column`: two more than each maximum. */
  function Padded(lengths: seq<nat>): seq<nat> {
    seq(|lengths|, c requires 0 <= c < |lengths| => lengths[c] + 2)
  }

  /** Every row written has a cell for each of the seven columns, the URL
      first. */
  lemma {:induction false} RowsShape(urls: seq<string>, g: Grouping)
    ensures forall r :: 0 <= r < |RowsOf(urls, g)| ==> |RowsOf(urls, g)[r]| == |Headers|
    ensures forall r :: 0 <= r < |RowsOf(urls, g)| ==> RowsOf(urls, g)[r][0] in urls
    decreases |urls|
  {
    if urls != [] {
      var n := |urls| - 1;
      RowsShape(urls[..n], g);
      GroupRowsShape(urls[n], ItemsAt(g, urls[n]));
    }
  }

  lemma {:induction false} GroupRowsShape(url: string, items: seq<Item>)
    ensures forall r :: 0 <= r < |items| ==> GroupRows(url, items)[r] == Cells(url, items[r])
    decreases |items|
  {
    if items != [] {
      GroupRowsShape(url, items[..|items| - 1]);
    }
  }

  /** Each column's maximum is at least its key's length and every cell's
      length in that column, and is one of those lengths. */
  lemma MaxLengthsMeaning(rows: seq<seq<string>>)
    ensures forall c :: 0 <= c < |Headers| ==> MaxLengths(rows)[c] >= |Headers[c]|
    ensures forall c, r :: 0 <= c < |Headers| && 0 <= r < |rows| && c < |rows[r]| ==> MaxLengths(rows)[c] >= |rows[r][c]|
    ensures forall c :: 0 <= c < |Headers| ==>
      (MaxLengths(rows)[c] == |Headers[c]| || exists r :: 0 <= r < |rows| && c < |rows[r]| && MaxLengths(rows)[c] == |rows[r][c]|)
  {
    forall c | 0 <= c < |Headers| {
      MaxLengthsColumn(rows, c);
    }
  }

  /** The same, for one column. */
  lemma {:induction false} MaxLengthsColumn(rows: seq<seq<string>>, c: nat)
    requires c < |Headers|
    ensures MaxLengths(rows)[c] >= |Headers[c]|
    ensures forall r :: 0 <= r < |rows| && c < |rows[r]| ==> MaxLengths(rows)[c] >= |rows[r][c]|
    ensures MaxLengths(rows)[c] == |Headers[c]| || exists r :: 0 <= r < |rows| && c < |rows[r]| && MaxLengths(rows)[c] == |rows[r][c]|
    decreases |rows|
  {
    if rows != [] {
      var n := |rows| - 1;
      var prev := rows[..n];
      assert forall r :: 0 <= r < n ==> prev[r] == rows[r];
      MaxLengthsColumn(prev, c);
      assert MaxLengths(rows)[c] == if c < |rows[n]| then Max(MaxLengths(prev)[c], |rows[n][c]|) else MaxLengths(prev)[c];
    }
  }

  /** The widths of the sheet's columns: each is two more than the longest
      of its key and the cells below it. */
  method ColumnWidths(reports: Grouping) returns (widths: seq<nat>)
    ensures widths == Padded(MaxLengths(Rows(reports)))
  {
    var maxLengths := new nat[|Headers|](c requires 0 <= c < |Headers| => |Headers[c]|);
    assert maxLengths[..] == HeaderLengths();
    for i := 0 to |reports.urls|
      invariant maxLengths[..] == MaxLengths(RowsOf(reports.urls[..i], reports))
    {
      RowsOfStep(reports.urls, reports, i);
      MeasureGroup(maxLengths, RowsOf(reports.urls[..i], reports), reports.urls[i], ItemsAt(reports, reports.urls[i]));
    }
    assert reports.urls[..|reports.urls|] == reports.urls;
    widths := SetColumns(maxLengths);
  }

  lemma RowsOfStep(urls: seq<string>, g: Grouping, i: nat)
    requires i < |urls|
    ensures RowsOf(urls[..i + 1], g) == RowsOf(urls[..i], g) + GroupRows(urls[i], ItemsAt(g, urls[i]))
  {
    assert urls[..i + 1][..i] == urls[..i];
  }

  /** The closing `set_column` loop: each column gets its maximum plus 2. */
  method SetColumns(maxLengths: array<nat>) returns (widths: seq<nat>)
    ensures widths == Padded(maxLengths[..])
  {
    widths := [];
    for c := 0 to maxLengths.Length
      invariant widths == Padded(maxLengths[..c])
    {
      widths := widths + [maxLengths[c] + 2];
    }
    assert maxLengths[..maxLengths.Length] == maxLengths[..];
  }

  /** The inner loop over one URL's items: `maxLengths` goes from the
      maxima over `before` to those over `before` and the URL's rows. */
  method MeasureGroup(maxLengths: array<nat>, ghost before: seq<seq<string>>, url: string, items: seq<Item>)
    requires maxLengths[..] == MaxLengths(before)
    modifies maxLengths
    ensures maxLengths[..] == MaxLengths(before + GroupRows(url, items))
  {
    assert before + GroupRows(url, items[..0]) == before;
    for j := 0 to |items|
      invariant maxLengths[..] == MaxLengths(before + GroupRows(url, items[..j]))
    {
      var done := before + GroupRows(url, items[..j]);
      assert items[..j + 1][..j] == items[..j];
      WidenColumns(maxLengths, url, items[j]);
      assert (done + [Cells(url, items[j])])[..|done|] == done;
      assert before + GroupRows(url, items[..j + 1]) == done + [Cells(url, items[j])];
    }
    assert items[..|items|] == items;
  }

  /** Every event becomes exactly one row of the sheet. */
  lemma {:induction false} GroupedRowCount(events: seq<RawEvent>, itemOf: RawEvent -> Option<Item>)
    requires Grouped(events, itemOf).Some?
    ensures |Rows(Grouped(events, itemOf).value)| == |events|
    decreases |events|
  {
    if events != [] {
      var n := |events| - 1;
      GroupedRowCount(events[..n], itemOf);
      GroupedWellFormed(events[..n], itemOf);
      GroupedLast(events, itemOf);
      AddItemRowCount(Grouped(events[..n], itemOf).value, events[n].url, itemOf(events[n]).value);
    }
  }

  /** One pass adds one row. */
  lemma AddItemRowCount(g: Grouping, url: string, item: Item)
    requires WellFormed(g)
    ensures |Rows(AddItem(g, url, item))| == |Rows(g)| + 1
  {
    var h := AddItem(g, url, item);
    RowsOfLength(g.urls, g, h, url);
    if url !in g.groups {
      assert h.urls[..|g.urls|] == g.urls;
    }
  }

  /** Growing the items of one key by one grows the rows of a key list by
      one when the list holds that key, and leaves their number alone
      otherwise. */
  lemma {:induction false} RowsOfLength(urls: seq<string>, g: Grouping, h: Grouping, url: string)
    requires NoDuplicates(urls)
    requires forall u :: u != url ==> ItemsAt(h, u) == ItemsAt(g, u)
    requires |ItemsAt(h, url)| == |ItemsAt(g, url)| + 1
    ensures |RowsOf(urls, h)| == |RowsOf(urls, g)| + (if url in urls then 1 else 0)
    decreases |urls|
  {
    if urls != [] {
      var n := |urls| - 1;
      assert urls == urls[..n] + [urls[n]];
      assert urls[n] == url ==> url !in urls[..n];
      RowsOfLength(urls[..n], g, h, url);
    }
  }

  /** The seven `max_lengths[k] = max(...)` updates for one item. */
  method WidenColumns(maxLengths: array<nat>, url: string, item: Item)
    requires maxLengths.Length == |Headers|
    modifies maxLengths
    ensures maxLengths[..] == Widen(old(maxLengths[..]), Cells(url, item))
  {
    maxLengths[0] := Max(maxLengths[0], |url|);
    maxLengths[1] := Max(maxLengths[1], |item.time|);
    maxLengths[2] := Max(maxLengths[2], |item.attackType|);
    maxLengths[3] := Max(maxLengths[3], |item.endpoint|);
    maxLengths[4] := Max(maxLengths[4], |item.srcIp|);
    maxLengths[5] := Max(maxLengths[5], |item.path|);
    maxLengths[6] := Max(maxLengths[6], |item.image|);
  }
}
