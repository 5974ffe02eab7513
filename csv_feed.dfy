/** CSV indicator extractor `__parse_csv` (pura/modules/threat_intel.py,
    lines 99-130). The first line is a header; the indicator column is the
    first `url` header, else the first `ip` header, and without either the
    whole feed yields nothing. Every later row gives its value in that column
    when the row is long enough, the value is non-empty and it passes the IP
    or the URL test. The header is popped off the caller's list in place. */
module CsvFeed {

  import opened Wrappers
  import opened Text
  import opened Indicators

  /** `xs.index(x)`: the first position of `x`, or `None` where Python raises
      ValueError. */
  function IndexOf(xs: seq<string>, x: string): (r: Option<nat>)
    ensures r.Some? ==> r.value < |xs| && xs[r.value] == x && x !in xs[..r.value]
    ensures r.None? ==> x !in xs
  {
    if xs == [] then None
    else if xs[0] == x then Some(0)
    else
      match IndexOf(xs[1..], x)
      case None => None
      case Some(i) =>
        assert xs[..i + 1] == [xs[0]] + xs[1..][..i];
        Some(i + 1)
  }

  /** The indicator column of a header row (lines 104-112). */
  function Column(headers: seq<string>): (r: Option<nat>)
    ensures r.None? <==> "url" !in headers && "ip" !in headers
    ensures r.Some? ==> r.value < |headers|
    ensures r.Some? && headers[r.value] == "url" ==> "url" !in headers[..r.value]
    ensures r.Some? && headers[r.value] != "url" ==>
              headers[r.value] == "ip" && "url" !in headers && "ip" !in headers[..r.value]
  {
    match IndexOf(headers, "url")
    case Some(i) => Some(i)
    case None => IndexOf(headers, "ip")
  }

  /** The value of column `idx` in a row, or `None` for a row too short for it
      (the IndexError that line 121 swallows). */
  function Cell(row: string, idx: nat): Option<string> {
    var cells := SplitOn(row, ',');
    if idx < |cells| then Some(cells[idx]) else None
  }

  /** A value the extractor keeps (lines 118-120). */
  predicate Indicator(env: Env, v: string) {
    v != [] && (env.isIP(v) || env.isURL(v))
  }

  /** What one data row contributes: its cell, when it is an indicator. */
  function RowIndicator(env: Env, row: string, idx: nat): seq<string> {
    match Cell(row, idx)
    case Some(v) => if Indicator(env, v) then [v] else []
    case None => []
  }

  /** The indicators of the data rows, in row order. */
  function Pick(env: Env, rows: seq<string>, idx: nat): (r: seq<string>)
    ensures |r| <= |rows|
  {
    if rows == [] then []
    else Pick(env, rows[..|rows| - 1], idx) + RowIndicator(env, rows[|rows| - 1], idx)
  }

  /** Only indicators are picked. */
  lemma {:induction false} PickIndicators(env: Env, rows: seq<string>, idx: nat)
    ensures forall k :: 0 <= k < |Pick(env, rows, idx)| ==> Indicator(env, Pick(env, rows, idx)[k])
  {
    if rows != [] {
      PickIndicators(env, rows[..|rows| - 1], idx);
    }
  }

  /** What `__parse_csv` returns for the lines of a fetched CSV document. */
  function CsvIndicators(env: Env, response: seq<string>): (r: seq<string>)
    ensures |r| < |response| || r == []
    ensures forall k :: 0 <= k < |r| ==> Indicator(env, r[k])
  {
    if response == [] then []
    else
      match Column(SplitOn(response[0], ','))
      case None => []
      case Some(idx) =>
        PickIndicators(env, response[1..], idx);
        Pick(env, response[1..], idx)
  }

  /** A Python list that its holder mutates in place. */
  class LineBuffer {
    var lines: seq<string>

    constructor (lines: seq<string>)
      ensures this.lines == lines
    {
      this.lines := lines;
    }

    /** `list.pop(0)`. */
    method PopFront() returns (head: string)
      requires lines != []
      modifies this
      ensures head == old(lines)[0] && lines == old(lines)[1..]
    {
      head := lines[0];
      lines := lines[1..];
    }
  }

  /** `__parse_csv`: pops the header off the caller's list, then collects the
      indicators of the remaining rows. */
  method ParseCsv(env: Env, response: LineBuffer) returns (hosts: seq<string>)
    modifies response
    ensures hosts == CsvIndicators(env, old(response.lines))
    ensures response.lines == if old(response.lines) == [] then [] else old(response.lines)[1..]
  {
    hosts := [];
    if response.lines == [] {
      return;
    }
    var header := response.PopFront();
    var headers := SplitOn(header, ',');
    var index: nat;
    match IndexOf(headers, "url") {
      case Some(i) =>
        index := i;
      case None =>
        match IndexOf(headers, "ip") {
          case Some(i) =>
            index := i;
          case None =>
            return;
        }
    }
    assert Column(headers) == Some(index);
    hosts := CollectColumn(env, response.lines, index);
  }

  /** The loop of lines 116-122 over the data rows. */
  method CollectColumn(env: Env, rows: seq<string>, index: nat) returns (hosts: seq<string>)
    ensures hosts == Pick(env, rows, index)
  {
    hosts := [];
    var j := 0;
    while j < |rows|
      invariant 0 <= j <= |rows|
      invariant hosts == Pick(env, rows[..j], index)
    {
      var line := SplitOn(rows[j], ',');
      if index < |line| {
        var data := line[index];
        if data != [] {
          if env.isIP(data) || env.isURL(data) {
            hosts := hosts + [data];
          }
        }
      }
      PickStep(env, rows, j, index);
      j := j + 1;
    }
    assert rows[..j] == rows;
  }

  /** One more row appends what that row contributes. */
  lemma PickStep(env: Env, rows: seq<string>, j: nat, idx: nat)
    requires j < |rows|
    ensures Pick(env, rows[..j + 1], idx) == Pick(env, rows[..j], idx) + RowIndicator(env, rows[j], idx)
  {
    assert rows[..j + 1][..j] == rows[..j];
  }

  /** A row appended at the end contributes after the others. */
  lemma PickLast(env: Env, rows: seq<string>, row: string, idx: nat)
    ensures Pick(env, rows + [row], idx) == Pick(env, rows, idx) + RowIndicator(env, row, idx)
  {
    assert (rows + [row])[..|rows|] == rows;
  }

  lemma {:induction false} PickAppend(env: Env, a: seq<string>, b: seq<string>, idx: nat)
    ensures Pick(env, a + b, idx) == Pick(env, a, idx) + Pick(env, b, idx)
    decreases |b|
  {
    if b == [] {
      assert a + b == a;
    } else {
      var b', row := b[..|b| - 1], b[|b| - 1];
      assert b == b' + [row] && a + b == (a + b') + [row];
      PickAppend(env, a, b', idx);
      PickLast(env, a + b', row, idx);
      PickLast(env, b', row, idx);
    }
  }

  /** The extractor keeps exactly the indicator cells of the data rows:
      a value is in the result if and only if some row holds it in the chosen
      column and it passes the tests. Rows too short are skipped. */
  lemma {:induction false} PickMembership(env: Env, rows: seq<string>, idx: nat, x: string)
    ensures x in Pick(env, rows, idx) <==>
              exists j :: 0 <= j < |rows| && Cell(rows[j], idx) == Some(x) && Indicator(env, x)
  {
    if rows != [] {
      var init := rows[..|rows| - 1];
      PickMembership(env, init, idx, x);
      if x in Pick(env, rows, idx) && x !in Pick(env, init, idx) {
        assert Cell(rows[|rows| - 1], idx) == Some(x);
      }
      if j :| 0 <= j < |rows| && Cell(rows[j], idx) == Some(x) && Indicator(env, x) {
        if j < |rows| - 1 {
          assert init[j] == rows[j];
        }
      }
    }
  }

  /** A row contributes at most its own cell, and rows keep their order:
      extracting from a concatenation of rows concatenates the results. */
  lemma CsvRows(env: Env, header: string, a: seq<string>, b: seq<string>)
    ensures CsvIndicators(env, [header] + a + b)
         == CsvIndicators(env, [header] + a) + CsvIndicators(env, [header] + b)
  {
    assert ([header] + a + b)[1..] == a + b;
    assert ([header] + a)[1..] == a && ([header] + b)[1..] == b;
    match Column(SplitOn(header, ',')) {
      case None =>
      case Some(idx) => PickAppend(env, a, b, idx);
    }
  }

  /** A PhishTank-style document: the `url` column is found and the URL of
      each data row extracted, whatever the other cells hold. */
  lemma CsvExample(env: Env, name: string, link: string, date: string)
    requires ',' !in name && ',' !in link && ',' !in date
    requires link != [] && env.isURL(link)
    ensures CsvIndicators(env, ["name,url,date", name + "," + link + "," + date]) == [link]
  {
    var doc := ["name,url,date", name + "," + link + "," + date];
    ExampleHeader();
    assert Column(["name", "url", "date"]) == Some(1);
    ExampleRow(name, link, date);
    var rows := doc[1..];
    assert Cell(rows[0], 1) == Some(link);
    assert rows[..0] == [];
    assert Pick(env, rows, 1) == Pick(env, [], 1) + RowIndicator(env, rows[0], 1);
  }

  lemma ExampleHeader()
    ensures SplitOn("name,url,date", ',') == ["name", "url", "date"]
  {
    var h := ["name", "url", "date"];
    assert Join(h, ',') == "name,url,date";
    SplitOnJoin(h, ',');
  }

  lemma ExampleRow(name: string, link: string, date: string)
    requires ',' !in name && ',' !in link && ',' !in date
    ensures SplitOn(name + "," + link + "," + date, ',') == [name, link, date]
  {
    assert name + "," + link + "," + date == name + "," + (link + "," + date);
    SplitCell(name, link + "," + date);
    SplitCell(link, date);
    SplitLast(date);
  }

  /** A cell and its comma come off the front of a row. */
  lemma SplitCell(cell: string, rest: string)
    requires ',' !in cell
    ensures SplitOn(cell + "," + rest, ',') == [cell] + SplitOn(rest, ',')
  {
    var t := "," + rest;
    assert cell + "," + rest == cell + t;
    SplitOnPrefix(cell, t, ',');
    assert t[1..] == rest;
    assert SplitOn(t, ',') == [[]] + SplitOn(rest, ',');
    assert cell + [] == cell;
  }

  /** The last cell of a row. */
  lemma SplitLast(cell: string)
    requires ',' !in cell
    ensures SplitOn(cell, ',') == [cell]
  {
    SplitOnPrefix(cell, [], ',');
    assert cell + [] == cell;
  }

  /** A header with neither `url` nor `ip` discards the whole document. */
  lemma CsvNoColumnExample(env: Env, doc: seq<string>)
    requires doc == ["name,date", "phish1,2024-01-01"]
    ensures CsvIndicators(env, doc) == []
  {
    var h := ["name", "date"];
    assert Join(h, ',') == "name,date";
    SplitOnJoin(h, ',');
    assert Column(h) == None;
  }
}
