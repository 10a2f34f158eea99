/** The CSV contact importer behind `POST /api/contacts/import`: the
    request guards, the split of the upload into non-blank lines, the header
    cells and column lookup, the quote-aware field splitter used for data
    rows, the silent skip of short rows, the construction of each contact,
    and the single bulk insert. */
module CsvImport {
  import opened Text
  import opened Models

  // ---------------------------------------------------------------------
  // The field splitter (`parseCSVLine`)
  // ---------------------------------------------------------------------

  /** The splitter's state after some prefix of a line: the fields finished
      so far (already trimmed), the field being built, and whether the scan
      is inside quotes. */
  datatype ScanState = ScanState(fields: seq<string>, current: string, inQuotes: bool)

  const Start := ScanState([], [], false)

  /** One character of the scan: a double quote flips quoted mode and is
      dropped; a comma outside quotes finishes the current field (trimmed);
      anything else, including a comma inside quotes, is kept as data. */
  function Step(st: ScanState, c: char): ScanState
  {
    if c == '"' then st.(inQuotes := !st.inQuotes)
    else if c == ',' && !st.inQuotes then ScanState(st.fields + [Trim(st.current)], [], st.inQuotes)
    else st.(current := st.current + [c])
  }

  /** The state after scanning `s` from state `st`, one character at a time. */
  function Run(st: ScanState, s: string): ScanState
  {
    if s == [] then st else Step(Run(st, s[..|s| - 1]), s[|s| - 1])
  }

  /** The fields of a data row: the finished fields plus the trimmed last
      one. A row has exactly one more field than it has separator commas, so
      it never parses to an empty list. */
  function Fields(line: string): (r: seq<string>)
    ensures |r| == Separators(line) + 1
  {
    RunCounts(line);
    var st := Run(Start, line);
    st.fields + [Trim(st.current)]
  }

  /** `parseCSVLine`: a single left-to-right pass that keeps the quoted-mode
      flag and the current value, pushing a trimmed field at every comma
      outside quotes and once more at the end. */
  method ParseCsvLine(line: string) returns (result: seq<string>)
    ensures result == Fields(line)
  {
    result := [];
    var currentValue: string := [];
    var inQuotes := false;
    for i := 0 to |line|
      invariant ScanState(result, currentValue, inQuotes) == Run(Start, line[..i])
    {
      assert line[..i + 1][..i] == line[..i];
      var c := line[i];
      if c == '"' {
        inQuotes := !inQuotes;
      } else if c == ',' && !inQuotes {
        result := result + [Trim(currentValue)];
        currentValue := [];
      } else {
        currentValue := currentValue + [c];
      }
    }
    assert line[..|line|] == line;
    result := result + [Trim(currentValue)];
  }

  /** Scanning one more character is one more step. */
  lemma RunSnoc(st: ScanState, s: string, c: char)
    ensures Run(st, s + [c]) == Step(Run(st, s), c)
  {
    assert (s + [c])[..|s|] == s;
  }

  /** Scanning a concatenation is scanning its parts one after the other. */
  lemma {:induction false} RunAppend(st: ScanState, p: string, q: string)
    ensures Run(st, p + q) == Run(Run(st, p), q)
  {
    if q != [] {
      assert (p + q)[..|p + q| - 1] == p + q[..|q| - 1];
      RunAppend(st, p, q[..|q| - 1]);
    } else {
      assert p + q == p;
    }
  }

  /** The number of commas that have an even number of double quotes before
      them, i.e. the commas that the splitter treats as separators. */
  function Separators(s: string): nat
  {
    if s == [] then 0
    else
      var p := s[..|s| - 1];
      Separators(p) + (if s[|s| - 1] == ',' && Occurrences(p, '"') % 2 == 0 then 1 else 0)
  }

  /** After any prefix, the splitter is inside quotes exactly when it has seen
      an odd number of double quotes, and it has finished one field per
      separator comma. */
  lemma {:induction false} RunCounts(s: string)
    ensures Run(Start, s).inQuotes <==> Occurrences(s, '"') % 2 == 1
    ensures |Run(Start, s).fields| == Separators(s)
  {
    if s != [] {
      RunCounts(s[..|s| - 1]);
    }
  }

  /** No double quote is ever kept in the state's text. */
  lemma {:induction false} RunDropsQuotes(s: string)
    ensures '"' !in Run(Start, s).current
    ensures forall k :: 0 <= k < |Run(Start, s).fields| ==> '"' !in Run(Start, s).fields[k]
  {
    if s != [] {
      RunDropsQuotes(s[..|s| - 1]);
      var st := Run(Start, s[..|s| - 1]);
      if '"' in Trim(st.current) {
        TrimChars(st.current, '"');
      }
    }
  }

  /** Double quotes never appear in any field. */
  lemma FieldsHaveNoQuotes(line: string)
    ensures forall k :: 0 <= k < |Fields(line)| ==> '"' !in Fields(line)[k]
  {
    RunDropsQuotes(line);
    var st := Run(Start, line);
    if '"' in Trim(st.current) {
      TrimChars(st.current, '"');
    }
  }

  lemma {:induction false} RunFieldsTrimmed(s: string)
    ensures forall k :: 0 <= k < |Run(Start, s).fields| ==> IsTrimmed(Run(Start, s).fields[k])
  {
    if s != [] {
      RunFieldsTrimmed(s[..|s| - 1]);
    }
  }

  /** Every field has no whitespace at either end. */
  lemma FieldsAreTrimmed(line: string)
    ensures forall k :: 0 <= k < |Fields(line)| ==> IsTrimmed(Fields(line)[k])
  {
    RunFieldsTrimmed(line);
  }

  /** `Trim` applied to each piece. */
  function TrimAll(parts: seq<string>): (r: seq<string>)
    ensures |r| == |parts|
    ensures forall k :: 0 <= k < |parts| ==> r[k] == Trim(parts[k])
  {
    seq(|parts|, k requires 0 <= k < |parts| => Trim(parts[k]))
  }

  /** On a line with no double quote, the scan has finished the trimmed
      comma-separated pieces but the last, which it is still building. */
  lemma {:induction false} RunWithoutQuotes(s: string)
    requires '"' !in s
    ensures var parts := SplitOn(s, ',');
      Run(Start, s) == ScanState(TrimAll(parts[..|parts| - 1]), parts[|parts| - 1], false)
  {
    if s != [] {
      var s' := s[..|s| - 1];
      var c := s[|s| - 1];
      assert s == s' + [c];
      RunWithoutQuotes(s');
      RunSnoc(Start, s', c);
      var p := SplitOn(s', ',');
      var r := SplitOn(s, ',');
      var st := Run(Start, s');
      assert st == ScanState(TrimAll(p[..|p| - 1]), p[|p| - 1], false);
      if c == ',' {
        assert r == p + [[]];
        assert r[..|r| - 1] == p;
        assert TrimAll(p) == TrimAll(p[..|p| - 1]) + [Trim(p[|p| - 1])];
      } else {
        assert r == p[..|p| - 1] + [p[|p| - 1] + [c]];
        assert r[..|r| - 1] == p[..|p| - 1];
      }
    }
  }

  /** On a line with no double quote the splitter agrees with a plain split on
      commas followed by a trim of every piece. */
  lemma QuoteFreeIsPlainSplit(line: string)
    requires '"' !in line
    ensures Fields(line) == TrimAll(SplitOn(line, ','))
  {
    RunWithoutQuotes(line);
    var parts := SplitOn(line, ',');
    assert parts == parts[..|parts| - 1] + [parts[|parts| - 1]];
  }

  /** Text without double quotes, read in quoted mode (or without commas),
      is appended to the current field unchanged. */
  lemma {:induction false} RunPlainText(st: ScanState, a: string)
    requires '"' !in a
    requires st.inQuotes || ',' !in a
    ensures Run(st, a) == st.(current := st.current + a)
  {
    if a != [] {
      var a' := a[..|a| - 1];
      assert '"' !in a' && (st.inQuotes || ',' !in a') by {
        forall k | 0 <= k < |a'| ensures a'[k] == a[k] { }
      }
      RunPlainText(st, a');
      assert a' + [a[|a| - 1]] == a;
    }
  }

  /** A quoted field may contain commas: `"a",b` parses to the two fields
      `a` and `b` (each trimmed) whenever `a` holds no double quote and `b`
      holds neither a double quote nor a comma. */
  lemma QuotedFieldKeepsCommas(a: string, b: string)
    requires '"' !in a
    requires '"' !in b && ',' !in b
    ensures Fields(['"'] + a + ['"', ','] + b) == [Trim(a), Trim(b)]
  {
    RunSnoc(Start, [], '"');
    assert [] + ['"'] == ['"'];
    var s1 := Run(Start, ['"']);
    assert s1 == ScanState([], [], true);
    RunPlainText(s1, a);
    RunAppend(Start, ['"'], a);
    var s2 := Run(Start, ['"'] + a);
    assert s2 == ScanState([], a, true);
    RunSnoc(s2, [], '"');
    RunSnoc(s2, ['"'], ',');
    assert ['"'] + [','] == ['"', ','];
    var s3 := Run(s2, ['"', ',']);
    assert s3 == ScanState([Trim(a)], [], false);
    RunAppend(Start, ['"'] + a, ['"', ',']);
    RunPlainText(s3, b);
    RunAppend(Start, ['"'] + a + ['"', ','], b);
    assert Run(Start, ['"'] + a + ['"', ','] + b) == ScanState([Trim(a)], b, false);
  }

  /** Two consecutive double quotes only flip quoted mode twice: a doubled
      quote is not read as an escaped quote character and contributes
      nothing to the result. */
  lemma DoubledQuoteVanishes(p: string, q: string)
    ensures Fields(p + ['"', '"'] + q) == Fields(p + q)
  {
    var st := Run(Start, p);
    RunSnoc(st, [], '"');
    RunSnoc(st, ['"'], '"');
    assert [] + ['"'] == ['"'];
    assert ['"'] + ['"'] == ['"', '"'];
    RunAppend(Start, p, ['"', '"']);
    RunAppend(Start, p + ['"', '"'], q);
    RunAppend(Start, p, q);
  }

  // ---------------------------------------------------------------------
  // Lines and header
  // ---------------------------------------------------------------------

  /** A piece followed by a line feed loses the carriage return just before
      that line feed: the pair is the `\r\n` separator. Only one carriage
      return goes; an earlier one is data. */
  function DropCarriageReturn(piece: string): (r: string)
    ensures (|piece| > 0 && piece[|piece| - 1] == '\r') <==> piece == r + ['\r']
    ensures !(|piece| > 0 && piece[|piece| - 1] == '\r') <==> r == piece
  {
    if piece != [] && piece[|piece| - 1] == '\r' then piece[..|piece| - 1] else piece
  }

  /** `csvText.split(/\r?\n/)`: the pieces between line feeds, each piece
      that a line feed follows less the carriage return of a `\r\n`. The
      last piece has no line feed after it and keeps a trailing carriage
      return. */
  function LinePieces(text: string): (r: seq<string>)
    ensures |r| == |SplitOn(text, '\n')|
  {
    var p := SplitOn(text, '\n');
    seq(|p|, k requires 0 <= k < |p| => if k < |p| - 1 then DropCarriageReturn(p[k]) else p[k])
  }

  /** There is one more piece than there are line feeds, no piece holds a
      line feed, and only the pieces a line feed follows lose a carriage
      return. */
  lemma LinePiecesSpec(text: string)
    ensures var r := LinePieces(text);
      && |r| == Occurrences(text, '\n') + 1
      && (forall k :: 0 <= k < |r| ==> '\n' !in r[k])
      && (forall k :: 0 <= k < |r| - 1 ==> r[k] == DropCarriageReturn(SplitOn(text, '\n')[k]))
      && r[|r| - 1] == SplitOn(text, '\n')[|r| - 1]
  {
    SplitOnSpec(text, '\n');
    var p, r := SplitOn(text, '\n'), LinePieces(text);
    forall k | 0 <= k < |r| ensures '\n' !in r[k] {
      if k < |r| - 1 && p[k] == r[k] + ['\r'] {
        assert forall i :: 0 <= i < |r[k]| ==> r[k][i] == p[k][i];
      }
    }
  }

  /** The pieces that are not whitespace only, in order. */
  function NonBlank(pieces: seq<string>): (r: seq<string>)
    ensures |r| <= |pieces|
  {
    if pieces == [] then []
    else
      var rest := NonBlank(pieces[..|pieces| - 1]);
      var last := pieces[|pieces| - 1];
      if Trim(last) != [] then rest + [last] else rest
  }

  /** The filter works piece by piece: filtering a concatenation filters each
      part and keeps their order. */
  lemma {:induction false} NonBlankAppend(a: seq<string>, b: seq<string>)
    ensures NonBlank(a + b) == NonBlank(a) + NonBlank(b)
  {
    if b == [] {
      assert a + b == a;
    } else {
      var b' := b[..|b| - 1];
      NonBlankAppend(a, b');
      assert (a + b)[..|a + b| - 1] == a + b';
    }
  }

  /** Every non-blank piece is kept as often as it occurs, and no blank one. */
  lemma {:induction false} NonBlankCounts(pieces: seq<string>, x: string)
    ensures multiset(NonBlank(pieces))[x] == if Trim(x) != [] then multiset(pieces)[x] else 0
  {
    if pieces != [] {
      var init := pieces[..|pieces| - 1];
      NonBlankCounts(init, x);
      assert pieces == init + [pieces[|pieces| - 1]];
    }
  }

  /** The lines kept are non-blank pieces, and every non-blank piece is
      kept. */
  lemma NonBlankMembers(pieces: seq<string>)
    ensures forall x :: x in NonBlank(pieces) ==> Trim(x) != [] && x in pieces
    ensures forall x :: x in pieces && Trim(x) != [] ==> x in NonBlank(pieces)
  {
    forall x | x in NonBlank(pieces) || x in pieces {
      NonBlankCounts(pieces, x);
    }
  }

  /** Blank pieces only leave nothing. */
  lemma {:induction false} NonBlankOfBlanks(pieces: seq<string>)
    requires forall i :: 0 <= i < |pieces| ==> Trim(pieces[i]) == []
    ensures NonBlank(pieces) == []
  {
    if pieces != [] {
      NonBlankOfBlanks(pieces[..|pieces| - 1]);
    }
  }

  lemma SplitAround<T>(s: seq<T>, j: nat)
    requires j < |s|
    ensures s == s[..j] + ([s[j]] + s[j + 1..])
  {
  }

  /** The first line kept, the header, is the first non-blank piece, and the
      data rows are the non-blank pieces after it. */
  lemma NonBlankHeader(pieces: seq<string>, j: nat)
    requires j < |pieces| && Trim(pieces[j]) != []
    requires forall i :: 0 <= i < j ==> Trim(pieces[i]) == []
    ensures NonBlank(pieces) == [pieces[j]] + NonBlank(pieces[j + 1..])
  {
    var before, x, after := pieces[..j], pieces[j], pieces[j + 1..];
    forall i | 0 <= i < |before| ensures Trim(before[i]) == [] {
      assert before[i] == pieces[i];
    }
    NonBlankOfBlanks(before);
    assert NonBlank([x]) == [x] by {
      assert [x][..0] == [];
    }
    NonBlankAppend([x], after);
    SplitAround(pieces, j);
    NonBlankAppend(before, [x] + after);
  }

  /** `csvText.split(/\r?\n/).filter(line => line.trim())`. */
  function Lines(text: string): (r: seq<string>)
    ensures |r| <= Occurrences(text, '\n') + 1
  {
    LinePiecesSpec(text);
    NonBlank(LinePieces(text))
  }

  /** The lines kept are exactly the non-blank ones; in particular no line
      kept is empty or whitespace only. */
  lemma LinesAreNonBlank(text: string)
    ensures forall k :: 0 <= k < |Lines(text)| ==> !SpaceBetween(Lines(text)[k], 0, |Lines(text)[k]|)
  {
    NonBlankMembers(LinePieces(text));
    forall k | 0 <= k < |Lines(text)| ensures !SpaceBetween(Lines(text)[k], 0, |Lines(text)[k]|) {
      assert Lines(text)[k] in Lines(text);
      TrimEmptyIffBlank(Lines(text)[k]);
    }
  }

  /** The header cells: `lines[0].split(',').map(h => h.trim())`, with no
      quote handling. */
  function HeaderCells(line: string): (r: seq<string>)
    ensures |r| == Occurrences(line, ',') + 1
  {
    SplitOnSpec(line, ',');
    TrimAll(SplitOn(line, ','))
  }

  /** `headers.findIndex(h => h === name)`: the first index holding exactly
      `name`, or -1 when there is none. */
  function FindIndex(headers: seq<string>, name: string): (r: int)
    ensures -1 <= r < |headers|
    ensures r == -1 <==> name !in headers
    ensures r >= 0 ==> headers[r] == name && name !in headers[..r]
  {
    if headers == [] then -1
    else if headers[0] == name then 0
    else
      var r := FindIndex(headers[1..], name);
      assert r >= 0 ==> headers[1..][..r] == headers[1..r + 1];
      if r == -1 then -1 else r + 1
  }

  // ---------------------------------------------------------------------
  // Contact construction
  // ---------------------------------------------------------------------

  /** A contact as the importer builds it: no id and no owner. */
  datatype ContactDraft = ContactDraft(
    firstName: string,
    lastName: string,
    email: string,
    phone: string,
    company: Company,
    status: string,
    notes: seq<Note>,
    createdAt: int,
    updatedAt: int)

  /** The column index of each recognised header (-1 when absent); the
      company name column is known to be present. */
  datatype Columns = Columns(name: nat, address: int, phone: int, website: int)

  /** `idx` is where `findIndex(h => h === name)` lands: the first cell
      exactly equal to `name`, or -1 when no cell is. */
  predicate FirstMatch(headers: seq<string>, name: string, idx: int)
  {
    && (idx == -1 <==> name !in headers)
    && (idx >= 0 ==> idx < |headers| && headers[idx] == name && name !in headers[..idx])
  }

  predicate ColumnsFit(cols: Columns, width: nat)
  {
    cols.name < width && cols.address < width && cols.phone < width && cols.website < width
  }

  /** The value of an optional column: `idx >= 0 ? values[idx] || '' : ''`. */
  function Cell(values: seq<string>, idx: int): string
    requires idx < |values|
  {
    if idx >= 0 then values[idx] else ""
  }

  /** The contact built from one surviving row, stamped with `now`. */
  function MakeContact(values: seq<string>, cols: Columns, now: int): ContactDraft
    requires ColumnsFit(cols, |values|)
  {
    var phone := Cell(values, cols.phone);
    ContactDraft("", "", "", phone,
      Company(values[cols.name], Cell(values, cols.address), phone, Cell(values, cols.website)),
      "new", [], now, now)
  }

  /** The person fields are empty, the status is "new" and there are no
      notes; the company fields come from their columns, an absent optional
      column giving ""; the contact's phone is the company phone. */
  lemma MakeContactFields(values: seq<string>, cols: Columns, now: int)
    requires ColumnsFit(cols, |values|)
    ensures var c := MakeContact(values, cols, now);
      && c.firstName == "" && c.lastName == "" && c.email == ""
      && c.status == "new" && c.notes == []
      && c.company.name == values[cols.name]
      && c.company.address == (if cols.address >= 0 then values[cols.address] else "")
      && c.phone == (if cols.phone >= 0 then values[cols.phone] else "")
      && c.company.phone == c.phone
      && c.company.website == (if cols.website >= 0 then values[cols.website] else "")
      && c.createdAt == now && c.updatedAt == now
  {
  }

  /** `parseCSVLine` applied to every data row. */
  function ParsedRows(rows: seq<string>): (r: seq<seq<string>>)
    ensures |r| == |rows|
    ensures forall k :: 0 <= k < |rows| ==> r[k] == Fields(rows[k])
  {
    seq(|rows|, k requires 0 <= k < |rows| => Fields(rows[k]))
  }

  /** The contacts built from the parsed data rows, in file order: a row
      with fewer fields than the header is skipped. */
  function ContactsOf(parsed: seq<seq<string>>, width: nat, cols: Columns, now: int): (r: seq<ContactDraft>)
    requires ColumnsFit(cols, width)
    ensures |r| <= |parsed|
  {
    if parsed == [] then []
    else
      var before := ContactsOf(parsed[..|parsed| - 1], width, cols, now);
      var values := parsed[|parsed| - 1];
      if |values| < width then before else before + [MakeContact(values, cols, now)]
  }

  /** The contacts built from the data rows. */
  function Contacts(rows: seq<string>, width: nat, cols: Columns, now: int): (r: seq<ContactDraft>)
    requires ColumnsFit(cols, width)
    ensures |r| <= |rows|
  {
    ContactsOf(ParsedRows(rows), width, cols, now)
  }

  /** The row loop of the handler: parse each data row and push a contact
      for it unless it is too short. */
  method BuildContacts(rows: seq<string>, width: nat, cols: Columns, now: int)
    returns (contacts: seq<ContactDraft>)
    requires ColumnsFit(cols, width)
    ensures contacts == Contacts(rows, width, cols, now)
  {
    ghost var parsed := ParsedRows(rows);
    contacts := [];
    for i := 0 to |rows|
      invariant contacts == ContactsOf(parsed[..i], width, cols, now)
    {
      assert parsed[..i + 1][..i] == parsed[..i];
      var values := ParseCsvLine(rows[i]);
      if |values| < width {
        continue;
      }
      contacts := contacts + [MakeContact(values, cols, now)];
    }
    assert parsed[..|rows|] == parsed;
  }

  /** Every contact carries the importer's fixed defaults and a company name
      taken from a row wide enough. */
  lemma {:induction false} ContactsShape(parsed: seq<seq<string>>, width: nat, cols: Columns, now: int)
    requires ColumnsFit(cols, width)
    ensures forall c :: c in ContactsOf(parsed, width, cols, now) ==>
      c.firstName == "" && c.lastName == "" && c.email == "" && c.status == "new"
      && c.notes == [] && c.phone == c.company.phone
    ensures forall c :: c in ContactsOf(parsed, width, cols, now) ==>
      exists v :: v in parsed && |v| >= width && c.company.name == v[cols.name]
  {
    if parsed != [] {
      var init := parsed[..|parsed| - 1];
      ContactsShape(init, width, cols, now);
      forall c | c in ContactsOf(parsed, width, cols, now)
        ensures exists v :: v in parsed && |v| >= width && c.company.name == v[cols.name]
      {
        if c in ContactsOf(init, width, cols, now) {
          var v :| v in init && |v| >= width && c.company.name == v[cols.name];
          assert v in parsed;
        } else {
          assert parsed[|parsed| - 1] in parsed;
        }
      }
    }
  }

  /** The positions among the first `k` parsed rows of the rows wide enough
      to become contacts. */
  function WideRowsBefore(parsed: seq<seq<string>>, width: nat, k: nat): (r: set<nat>)
    requires k <= |parsed|
    ensures forall i :: i in r ==> i < k
  {
    set i: nat | i < k && |parsed[i]| >= width
  }

  /** Building works row by row: the contacts of a concatenation are the
      contacts of each part, in order. */
  lemma {:induction false} ContactsAppend(a: seq<seq<string>>, b: seq<seq<string>>, width: nat, cols: Columns, now: int)
    requires ColumnsFit(cols, width)
    ensures ContactsOf(a + b, width, cols, now) == ContactsOf(a, width, cols, now) + ContactsOf(b, width, cols, now)
  {
    if b == [] {
      assert a + b == a;
    } else {
      var b' := b[..|b| - 1];
      ContactsAppend(a, b', width, cols, now);
      assert (a + b)[..|a + b| - 1] == a + b';
    }
  }

  /** Counting wide rows before `k` looks only at the rows before `k`. */
  lemma WideRowsOfPrefix(parsed: seq<seq<string>>, width: nat, n: nat, k: nat)
    requires k <= n <= |parsed|
    ensures WideRowsBefore(parsed, width, k) == WideRowsBefore(parsed[..n], width, k)
  {
  }

  /** One more row adds its position exactly when it is wide. */
  lemma WideRowsStep(parsed: seq<seq<string>>, width: nat, k: nat)
    requires k < |parsed|
    ensures |WideRowsBefore(parsed, width, k + 1)|
      == |WideRowsBefore(parsed, width, k)| + (if |parsed[k]| >= width then 1 else 0)
  {
    if |parsed[k]| >= width {
      assert WideRowsBefore(parsed, width, k + 1) == WideRowsBefore(parsed, width, k) + {k};
    } else {
      assert WideRowsBefore(parsed, width, k + 1) == WideRowsBefore(parsed, width, k);
    }
  }

  /** A row is skipped exactly when it is too short. There is one contact
      per row wide enough, and the contact of the wide row at position `k`
      comes right after the contacts of the wide rows before it: surviving
      rows become contacts in file order, with short rows anywhere in the
      file. */
  lemma {:induction false} ContactsSkipShortRows(parsed: seq<seq<string>>, width: nat, cols: Columns, now: int)
    requires ColumnsFit(cols, width)
    ensures |ContactsOf(parsed, width, cols, now)| == |WideRowsBefore(parsed, width, |parsed|)|
    ensures forall k :: 0 <= k < |parsed| && |parsed[k]| >= width ==>
      && |WideRowsBefore(parsed, width, k)| < |ContactsOf(parsed, width, cols, now)|
      && ContactsOf(parsed, width, cols, now)[|WideRowsBefore(parsed, width, k)|] == MakeContact(parsed[k], cols, now)
  {
    if parsed != [] {
      var n := |parsed| - 1;
      var init := parsed[..n];
      var all := ContactsOf(parsed, width, cols, now);
      var before := ContactsOf(init, width, cols, now);
      ContactsSkipShortRows(init, width, cols, now);
      WideRowsOfPrefix(parsed, width, n, n);
      WideRowsStep(parsed, width, n);
      assert all == before + (if |parsed[n]| >= width then [MakeContact(parsed[n], cols, now)] else []);
      forall k | 0 <= k < |parsed| && |parsed[k]| >= width
        ensures |WideRowsBefore(parsed, width, k)| < |all|
        ensures all[|WideRowsBefore(parsed, width, k)|] == MakeContact(parsed[k], cols, now)
      {
        WideRowsOfPrefix(parsed, width, n, k);
        var j := |WideRowsBefore(parsed, width, k)|;
        if k < n {
          assert parsed[k] == init[k];
          assert j < |before| && before[j] == MakeContact(init[k], cols, now);
          assert all[j] == before[j];
        } else {
          assert all == before + [MakeContact(parsed[n], cols, now)];
        }
      }
    }
  }

  /** The two extremes: when every row is wide enough there is one contact
      per row, and when none is there are none. */
  lemma {:induction false} ContactsExtremes(parsed: seq<seq<string>>, width: nat, cols: Columns, now: int)
    requires ColumnsFit(cols, width)
    ensures (forall v :: v in parsed ==> |v| >= width) ==> |ContactsOf(parsed, width, cols, now)| == |parsed|
    ensures (forall v :: v in parsed ==> |v| < width) ==> ContactsOf(parsed, width, cols, now) == []
  {
    if parsed != [] {
      var init := parsed[..|parsed| - 1];
      assert forall v :: v in init ==> v in parsed;
      ContactsExtremes(init, width, cols, now);
      assert parsed[|parsed| - 1] in parsed;
    }
  }

  // ---------------------------------------------------------------------
  // The request handler
  // ---------------------------------------------------------------------

  /** An uploaded form file: its name and its text content. */
  datatype Upload = Upload(name: string, content: string)

  /** The reasons the handler rejects a request before writing anything. */
  datatype Rejection = NotSignedIn | NoFile | NotCsv | TooFewLines | NoCompanyName

  /** The HTTP status of a rejection. */
  function StatusOf(e: Rejection): (code: nat)
    ensures code == 401 <==> e == NotSignedIn
    ensures code != 401 ==> code == 400
  {
    if e == NotSignedIn then 401 else 400
  }

  /** The `error` text of a rejection. */
  function ErrorText(e: Rejection): string
  {
    match e
    case NotSignedIn => "Unauthorized"
    case NoFile => "No file uploaded"
    case NotCsv => "File must be a CSV"
    case TooFewLines => "CSV file must contain a header row and at least one data row"
    case NoCompanyName => "CSV must contain a \"company_name\" column"
  }

  datatype Response =
    | Failure(reason: Rejection)
    | Success(message: string)

  /** What a request yields: the response and the contacts written. */
  datatype Outcome = Outcome(response: Response, inserted: seq<ContactDraft>)

  /** The header width and the recognised columns of a header line, or
      `None` when the company name column is missing. */
  function ColumnsOf(headers: seq<string>): (r: Option<Columns>)
    ensures r.None? <==> "company_name" !in headers
    ensures r.Some? ==> ColumnsFit(r.value, |headers|)
    ensures r.Some? ==> FirstMatch(headers, "company_name", r.value.name)
    ensures r.Some? ==> FirstMatch(headers, "company_address", r.value.address)
    ensures r.Some? ==> FirstMatch(headers, "company_phone", r.value.phone)
    ensures r.Some? ==> FirstMatch(headers, "company_website", r.value.website)
  {
    var name := FindIndex(headers, "company_name");
    if name == -1 then None
    else Some(Columns(name, FindIndex(headers, "company_address"),
      FindIndex(headers, "company_phone"), FindIndex(headers, "company_website")))
  }

  /** The success message: "Imported <n> contacts". */
  function ImportedMessage(n: nat): string
  {
    "Imported " + NatToString(n) + " contacts"
  }

  lemma ImportedMessageZero()
    ensures ImportedMessage(0) == "Imported 0 contacts"
  {
    assert NatToString(0) == "0";
  }

  /** The whole handler as a function of the caller, the uploaded file and
      the current time. */
  function Import(caller: Option<AuthUser>, file: Option<Upload>, now: int): (r: Outcome)
    ensures r.response.Failure? ==> r.inserted == []
    ensures r.response.Success? ==> r.response.message == ImportedMessage(|r.inserted|)
  {
    if caller.None? then Outcome(Failure(NotSignedIn), [])
    else if file.None? then Outcome(Failure(NoFile), [])
    else if !EndsWith(file.value.name, ".csv") then Outcome(Failure(NotCsv), [])
    else
      var lines := Lines(file.value.content);
      if |lines| < 2 then
        Outcome(Failure(TooFewLines), [])
      else
        var headers := HeaderCells(lines[0]);
        match ColumnsOf(headers)
        case None => Outcome(Failure(NoCompanyName), [])
        case Some(cols) =>
          var contacts := Contacts(lines[1..], |headers|, cols, now);
          Outcome(Success(ImportedMessage(|contacts|)), contacts)
  }

  /** Each guard rejects before any parsing. */
  lemma ImportGuards(caller: Option<AuthUser>, file: Option<Upload>, now: int)
    ensures caller.None? <==> Import(caller, file, now) == Outcome(Failure(NotSignedIn), [])
    ensures caller.Some? && file.None? ==> Import(caller, file, now).response == Failure(NoFile)
    ensures caller.Some? && file.Some? && !EndsWith(file.value.name, ".csv") ==>
      Import(caller, file, now).response == Failure(NotCsv)
    ensures caller.Some? && file.Some? && EndsWith(file.value.name, ".csv") && |Lines(file.value.content)| < 2 ==>
      Import(caller, file, now).response == Failure(TooFewLines)
  {
  }

  /** A header without an exact, case-sensitive `company_name` cell rejects
      the file with 400 and nothing is written. */
  lemma ImportNeedsCompanyName(caller: AuthUser, file: Upload, now: int)
    requires EndsWith(file.name, ".csv")
    requires |Lines(file.content)| >= 2
    requires "company_name" !in HeaderCells(Lines(file.content)[0])
    ensures Import(Some(caller), Some(file), now)
      == Outcome(Failure(NoCompanyName), [])
  {
  }

  /** On success the message reports exactly the number of contacts
      written, which is at most the number of data lines, and every contact
      written is a fresh "new" contact with no person fields. */
  lemma ImportSuccess(caller: AuthUser, file: Upload, now: int)
    requires Import(Some(caller), Some(file), now).response.Success?
    ensures var o := Import(Some(caller), Some(file), now);
      && o.response.message == ImportedMessage(|o.inserted|)
      && |o.inserted| <= |Lines(file.content)| - 1
      && forall c :: c in o.inserted ==> c.status == "new" && c.firstName == ""
  {
    var lines := Lines(file.content);
    var headers := HeaderCells(lines[0]);
    var cols := ColumnsOf(headers).value;
    var contacts := Contacts(lines[1..], |headers|, cols, now);
    var o := Import(Some(caller), Some(file), now);
    assert o == Outcome(Success(ImportedMessage(|contacts|)), contacts);
    ContactsShape(ParsedRows(lines[1..]), |headers|, cols, now);
  }

  /** When every data row is skipped the import still succeeds, writes
      nothing and reports "Imported 0 contacts". */
  lemma ImportNothingSurvives(caller: AuthUser, file: Upload, now: int)
    requires Import(Some(caller), Some(file), now).response.Success?
    requires Import(Some(caller), Some(file), now).inserted == []
    ensures Import(Some(caller), Some(file), now).response == Success("Imported 0 contacts")
  {
    ImportSuccess(caller, file, now);
    ImportedMessageZero();
  }

  /** The `contacts` collection as the importer sees it: the documents it
      holds and the number of bulk writes made to it. */
  class ContactsCollection {
    var docs: seq<ContactDraft>
    var writes: nat

    constructor (docs: seq<ContactDraft>)
      ensures this.docs == docs && writes == 0
    {
      this.docs := docs;
      writes := 0;
    }
  }

  /** `POST /api/contacts/import`: the guards, the line split, the header
      lookup, the row loop, and a single bulk insert made only when at least
      one contact was built. */
  method Post(store: ContactsCollection, caller: Option<AuthUser>, file: Option<Upload>, now: int)
    returns (response: Response)
    modifies store
    ensures var o := Import(caller, file, now);
      && response == o.response
      && store.docs == old(store.docs) + o.inserted
      && store.writes == old(store.writes) + (if o.inserted != [] then 1 else 0)
  {
    if caller.None? {
      return Failure(NotSignedIn);
    }
    if file.None? {
      return Failure(NoFile);
    }
    if !EndsWith(file.value.name, ".csv") {
      return Failure(NotCsv);
    }
    var lines := Lines(file.value.content);
    if |lines| < 2 {
      return Failure(TooFewLines);
    }
    var headers := HeaderCells(lines[0]);
    var columns := ColumnsOf(headers);
    if columns.None? {
      return Failure(NoCompanyName);
    }
    var contacts := BuildContacts(lines[1..], |headers|, columns.value, now);
    assert Import(caller, file, now) == Outcome(Success(ImportedMessage(|contacts|)), contacts);
    if |contacts| > 0 {
      store.docs := store.docs + contacts;
      store.writes := store.writes + 1;
    }
    response := Success(ImportedMessage(|contacts|));
  }
}
