/** The CSV serialiser of the export service (src/services/exportService.ts):
    column selection, the text of each column for a contact, the cell quoting
    of section 2 of RFC 4180, and the layout of the document. Alongside the
    serialiser sits a reader for quoted rows, used only to state what the
    quoting guarantees: every row reads back as the field values, one per
    header. */
module Csv {
  import opened Types
  import opened Text

  /** The nine columns used when the caller names none, in this order. */
  const DefaultFields: seq<string> :=
    ["name", "company", "position", "department", "phone", "email", "address", "website", "notes"]

  /** `getCSVHeaders`: the requested fields, or the defaults for an empty request. */
  function CsvHeaders(fields: seq<string>): (r: seq<string>)
    ensures |r| >= 1
    ensures fields != [] ==> r == fields
    ensures fields == [] ==> r == DefaultFields
  {
    if |fields| > 0 then fields else DefaultFields
  }

  // ---------------------------------------------------------------------------
  // Field values
  // ---------------------------------------------------------------------------

  const ListSeparator: string := "; "

  /** One postal address on one line: street, city, state and postal code, country. */
  function AddressText(a: ContactAddress): string
  {
    a.street + ", " + a.city + ", " + a.state + " " + a.postalCode + ", " + a.country
  }

  function AddressTexts(addrs: seq<ContactAddress>): (r: seq<string>)
    ensures |r| == |addrs|
    ensures forall i :: 0 <= i < |addrs| ==> r[i] == AddressText(addrs[i])
  {
    seq(|addrs|, i requires 0 <= i < |addrs| => AddressText(addrs[i]))
  }

  /** The entries of a list-valued column, for the three columns that list
      their entries unchanged. */
  function ListEntries(c: Contact, field: string): seq<string>
  {
    if field == "phone" then PhoneNumbers(c.phones)
    else if field == "email" then EmailAddresses(c.emails)
    else if field == "website" then c.websites
    else []
  }

  /** `getContactFieldValue`: the text of one column for one contact. Unknown
      column names give the empty string; list-valued columns list their
      entries in order, separated by "; ". */
  function FieldValue(c: Contact, field: string): (r: string)
    ensures field !in DefaultFields ==> r == ""
    ensures field == "name" ==> r == c.name
    ensures field == "company" ==> r == c.company
    ensures field == "position" ==> r == c.position
    ensures field == "department" ==> r == c.department
    ensures field == "notes" ==> r == c.notes
    ensures field in ["phone", "email", "website"] ==> r == Join(ListEntries(c, field), ListSeparator)
    ensures field == "address" ==> r == Join(AddressTexts(c.addresses), ListSeparator)
  {
    match field
    case "name" => c.name
    case "company" => c.company
    case "position" => c.position
    case "department" => c.department
    case "phone" => Join(PhoneNumbers(c.phones), ListSeparator)
    case "email" => Join(EmailAddresses(c.emails), ListSeparator)
    case "address" => Join(AddressTexts(c.addresses), ListSeparator)
    case "website" => Join(c.websites, ListSeparator)
    case "notes" => c.notes
    case _ => ""
  }

  /** Each piece with a space in front. */
  function Spaced(xs: seq<string>): (r: seq<string>)
    ensures |r| == |xs|
    ensures forall i :: 0 <= i < |xs| ==> r[i] == " " + xs[i]
  {
    seq(|xs|, i requires 0 <= i < |xs| => " " + xs[i])
  }

  lemma {:induction false} SpacedJoin(ys: seq<string>)
    requires |ys| >= 1
    ensures " " + Join(ys, ListSeparator) == Join(Spaced(ys), ";")
    decreases |ys|
  {
    if |ys| > 1 {
      SpacedJoin(ys[1..]);
      assert Spaced(ys)[1..] == Spaced(ys[1..]);
      assert " " + Join(ys, ListSeparator)
          == (" " + ys[0]) + ";" + (" " + Join(ys[1..], ListSeparator));
    }
  }

  /** A list value is the same text as its entries, each after the first with
      a leading space, joined with ';'. */
  lemma SeparatorSplit(a: string, b: string)
    ensures a + ";" + (" " + b) == a + ListSeparator + b
  {
    assert ListSeparator == [';', ' '];
    assert a + ";" + (" " + b) == a + [';', ' '] + b;
  }

  lemma JoinListPieces(xs: seq<string>)
    requires |xs| >= 1
    ensures Join(xs, ListSeparator) == Join([xs[0]] + Spaced(xs[1..]), ";")
  {
    var pieces := [xs[0]] + Spaced(xs[1..]);
    if |xs| > 1 {
      var tail := Join(xs[1..], ListSeparator);
      SpacedJoin(xs[1..]);
      assert pieces[1..] == Spaced(xs[1..]);
      assert Join(pieces, ";") == xs[0] + ";" + (" " + tail);
      SeparatorSplit(xs[0], tail);
    } else {
      assert pieces == [xs[0]];
    }
  }

  /** A list value splits at ';' into its entries, each after the first
      keeping the space of the separator, when no entry contains ';'. */
  lemma ListValueSplit(xs: seq<string>)
    requires |xs| >= 1
    requires forall k :: 0 <= k < |xs| ==> ';' !in xs[k]
    ensures Split(Join(xs, ListSeparator), ';') == [xs[0]] + Spaced(xs[1..])
  {
    var pieces := [xs[0]] + Spaced(xs[1..]);
    JoinListPieces(xs);
    forall k | 0 <= k < |pieces| ensures ';' !in pieces[k] {
      if k > 0 {
        assert pieces[k] == " " + xs[k];
      }
    }
    SplitJoin(pieces, ';');
  }

  /** The phone, e-mail and website columns give their entries back when split
      at ';' and stripped of the separator's space. */
  lemma ListFieldSplit(c: Contact, field: string)
    requires field in ["phone", "email", "website"]
    requires |ListEntries(c, field)| >= 1
    requires forall k :: 0 <= k < |ListEntries(c, field)| ==> ';' !in ListEntries(c, field)[k]
    ensures var xs := ListEntries(c, field);
            Split(FieldValue(c, field), ';') == [xs[0]] + Spaced(xs[1..])
  {
    ListValueSplit(ListEntries(c, field));
  }

  // ---------------------------------------------------------------------------
  // Cell quoting (section 2 of RFC 4180, rules 5-7)
  // ---------------------------------------------------------------------------

  /** `value.replace(/"/g, '""')`. */
  function Escape(v: string): (r: string)
    ensures |r| >= |v|
  {
    if v == [] then ""
    else (if v[0] == '"' then "\"\"" else [v[0]]) + Escape(v[1..])
  }

  /** A cell: the escaped value between double quotes. */
  function Quote(v: string): (r: string)
    ensures |r| >= 2 && r[0] == '"' && r[|r| - 1] == '"'
  {
    "\"" + Escape(v) + "\""
  }

  /** What reading a quoted field yields: the value and the text after its
      closing quote. */
  datatype Read = Read(value: string, rest: string)

  /** Reads the inside of a quoted field up to its closing quote, turning each
      `""` back into `"`. None when the closing quote is missing. */
  function ReadQuoted(s: string): (r: Option<Read>)
    ensures r.Some? ==> |r.value.rest| < |s|
    decreases |s|
  {
    if s == [] then None
    else if s[0] == '"' then
      if |s| >= 2 && s[1] == '"' then
        match ReadQuoted(s[2..])
        case None => None
        case Some(Read(v, rest)) => Some(Read("\"" + v, rest))
      else Some(Read("", s[1..]))
    else
      match ReadQuoted(s[1..])
      case None => None
      case Some(Read(v, rest)) => Some(Read([s[0]] + v, rest))
  }

  lemma ReadClose(rest: string)
    requires rest == [] || rest[0] != '"'
    ensures ReadQuoted("\"" + rest) == Some(Read("", rest))
  {
    assert ("\"" + rest)[1..] == rest;
  }

  lemma ReadPair(t: string)
    ensures ReadQuoted("\"\"" + t) ==
              match ReadQuoted(t)
              case None => None
              case Some(Read(w, r)) => Some(Read("\"" + w, r))
  {
    var s := "\"\"" + t;
    assert s[0] == '"' && s[1] == '"' && s[2..] == t;
  }

  lemma ReadPlain(ch: char, t: string)
    requires ch != '"'
    ensures ReadQuoted([ch] + t) ==
              match ReadQuoted(t)
              case None => None
              case Some(Read(w, r)) => Some(Read([ch] + w, r))
  {
    var s := [ch] + t;
    assert s[0] == ch && s[1..] == t;
  }

  /** Reading stops at the quote that closes an escaped value, provided what
      follows does not begin with another quote. */
  lemma {:induction false} ReadEscape(v: string, rest: string)
    requires rest == [] || rest[0] != '"'
    ensures ReadQuoted(Escape(v) + "\"" + rest) == Some(Read(v, rest))
    decreases |v|
  {
    if v == [] {
      assert Escape(v) + "\"" + rest == "\"" + rest;
      ReadClose(rest);
    } else {
      var head := if v[0] == '"' then "\"\"" else [v[0]];
      var t := Escape(v[1..]) + "\"" + rest;
      ReadEscape(v[1..], rest);
      Regroup(head, Escape(v[1..]), "\"", rest);
      assert Escape(v) + "\"" + rest == head + t;
      if v[0] == '"' {
        ReadPair(t);
        assert "\"" + v[1..] == v;
      } else {
        ReadPlain(v[0], t);
        assert [v[0]] + v[1..] == v;
      }
    }
  }

  lemma Regroup<T>(a: seq<T>, b: seq<T>, c: seq<T>, d: seq<T>)
    ensures (a + b) + c + d == a + (b + c + d)
  {
  }

  /** Undoes `Quote`: the value of a string that is exactly one quoted field. */
  function Unquote(q: string): (r: Option<string>)
    ensures r.Some? ==> |q| >= 2 && q[0] == '"'
  {
    if q == [] || q[0] != '"' then None
    else match ReadQuoted(q[1..])
      case Some(Read(v, rest)) => if rest == [] then Some(v) else None
      case None => None
  }

  /** Quoting round-trips. */
  lemma UnquoteQuote(v: string)
    ensures Unquote(Quote(v)) == Some(v)
  {
    ReadEscape(v, "");
    assert Quote(v)[1..] == Escape(v) + "\"" + "";
  }

  /** Different values give different cells. */
  lemma QuoteInjective(v: string, w: string)
    requires Quote(v) == Quote(w)
    ensures v == w
  {
    UnquoteQuote(v);
    UnquoteQuote(w);
  }

  /** Reads a row of quoted fields separated by commas. */
  function ReadRow(s: string): (r: Option<seq<string>>)
    ensures r.Some? ==> |r.value| >= 1
    decreases |s|
  {
    if s == [] || s[0] != '"' then None
    else match ReadQuoted(s[1..])
      case None => None
      case Some(Read(v, rest)) =>
        if rest == [] then Some([v])
        else if rest[0] != ',' then None
        else match ReadRow(rest[1..])
          case None => None
          case Some(vs) => Some([v] + vs)
  }

  function QuoteAll(vs: seq<string>): (r: seq<string>)
    ensures |r| == |vs|
    ensures forall i :: 0 <= i < |vs| ==> r[i] == Quote(vs[i])
  {
    seq(|vs|, i requires 0 <= i < |vs| => Quote(vs[i]))
  }

  lemma ReadRowOne(v: string)
    ensures ReadRow(Quote(v)) == Some([v])
  {
    ReadEscape(v, "");
    assert Quote(v)[1..] == Escape(v) + "\"" + "";
  }

  lemma ReadRowCons(v: string, tail: string)
    ensures ReadRow(Quote(v) + ("," + tail)) ==
              match ReadRow(tail)
              case None => None
              case Some(vs) => Some([v] + vs)
  {
    var s := Quote(v) + ("," + tail);
    ReadEscape(v, "," + tail);
    assert s[0] == '"';
    assert s[1..] == Escape(v) + "\"" + ("," + tail);
    assert ("," + tail)[1..] == tail;
  }

  /** A row of quoted cells reads back as the values, one per cell. */
  lemma {:induction false} ReadQuotedRow(vs: seq<string>)
    requires |vs| >= 1
    ensures ReadRow(Join(QuoteAll(vs), ",")) == Some(vs)
    decreases |vs|
  {
    var qs := QuoteAll(vs);
    if |vs| == 1 {
      assert Join(qs, ",") == Quote(vs[0]);
      ReadRowOne(vs[0]);
      assert vs == [vs[0]];
    } else {
      var tail := Join(QuoteAll(vs[1..]), ",");
      assert qs[1..] == QuoteAll(vs[1..]);
      assert Join(qs, ",") == Quote(vs[0]) + ("," + tail);
      ReadRowCons(vs[0], tail);
      ReadQuotedRow(vs[1..]);
      assert [vs[0]] + vs[1..] == vs;
    }
  }

  // ---------------------------------------------------------------------------
  // The document
  // ---------------------------------------------------------------------------

  /** The values of one contact, one per header. */
  function RowValues(c: Contact, headers: seq<string>): (r: seq<string>)
    ensures |r| == |headers|
    ensures forall i :: 0 <= i < |headers| ==> r[i] == FieldValue(c, headers[i])
  {
    seq(|headers|, i requires 0 <= i < |headers| => FieldValue(c, headers[i]))
  }

  /** One data row: the quoted values joined with commas. */
  function RowText(c: Contact, headers: seq<string>): string
  {
    Join(QuoteAll(RowValues(c, headers)), ",")
  }

  /** Every row has one cell per header, and each cell reads back as the
      contact's value for that header. */
  lemma RowReadsBack(c: Contact, headers: seq<string>)
    requires |headers| >= 1
    ensures ReadRow(RowText(c, headers)).Some?
    ensures |ReadRow(RowText(c, headers)).value| == |headers|
    ensures forall i :: 0 <= i < |headers| ==>
              ReadRow(RowText(c, headers)).value[i] == FieldValue(c, headers[i])
  {
    ReadQuotedRow(RowValues(c, headers));
  }

  function Rows(contacts: seq<Contact>, headers: seq<string>): (r: seq<string>)
    ensures |r| == |contacts|
    ensures forall i :: 0 <= i < |contacts| ==> r[i] == RowText(contacts[i], headers)
  {
    seq(|contacts|, i requires 0 <= i < |contacts| => RowText(contacts[i], headers))
  }

  /** The lines of the document: the header line as written, unquoted, then
      one row per contact in input order. */
  function CsvLines(contacts: seq<Contact>, fields: seq<string>): (r: seq<string>)
    ensures |r| == |contacts| + 1
    ensures r[0] == Join(CsvHeaders(fields), ",")
    ensures forall i :: 0 <= i < |contacts| ==> r[i + 1] == RowText(contacts[i], CsvHeaders(fields))
  {
    var header := Join(CsvHeaders(fields), ",");
    var rows := Rows(contacts, CsvHeaders(fields));
    ConsIndex(header, rows);
    [header] + rows
  }

  lemma ConsIndex<T>(x: T, xs: seq<T>)
    ensures forall i :: 0 <= i < |xs| ==> ([x] + xs)[i + 1] == xs[i]
  {
  }

  /** `exportToCSV` without the file: the lines joined with '\n'. The document
      opens with the header line, and with no contacts it is that line alone. */
  function ExportCsv(contacts: seq<Contact>, fields: seq<string>): (r: string)
    ensures StartsWith(r, Join(CsvHeaders(fields), ","))
    ensures contacts == [] ==> r == Join(CsvHeaders(fields), ",")
  {
    var lines := CsvLines(contacts, fields);
    assert |lines| >= 2 ==> Join(lines, "\n") == lines[0] + ("\n" + Join(lines[1..], "\n"));
    Join(lines, "\n")
  }

  lemma {:induction false} EscapeAvoids(v: string, x: char)
    requires x != '"' && x !in v
    ensures x !in Escape(v)
    decreases |v|
  {
    if v != [] {
      EscapeAvoids(v[1..], x);
    }
  }

  /** A row has a line break only where one of its values has. */
  lemma RowAvoids(c: Contact, headers: seq<string>, x: char)
    requires x != '"' && x != ','
    requires forall i :: 0 <= i < |headers| ==> x !in FieldValue(c, headers[i])
    ensures x !in RowText(c, headers)
  {
    var qs := QuoteAll(RowValues(c, headers));
    forall k | 0 <= k < |qs| ensures x !in qs[k] {
      EscapeAvoids(FieldValue(c, headers[k]), x);
    }
    JoinAvoids(qs, ",", x);
  }

  /** When no header and no value contains a line break, splitting the
      document at '\n' gives back its lines, and each data row reads back as
      the contact's values: the document round-trips. */
  lemma CsvReadsBack(contacts: seq<Contact>, fields: seq<string>)
    requires forall h :: 0 <= h < |CsvHeaders(fields)| ==> '\n' !in CsvHeaders(fields)[h]
    requires forall i, h :: 0 <= i < |contacts| && 0 <= h < |CsvHeaders(fields)| ==>
               '\n' !in FieldValue(contacts[i], CsvHeaders(fields)[h])
    ensures Split(ExportCsv(contacts, fields), '\n') == CsvLines(contacts, fields)
    ensures forall i :: 0 <= i < |contacts| ==>
              ReadRow(Split(ExportCsv(contacts, fields), '\n')[i + 1]) == Some(RowValues(contacts[i], CsvHeaders(fields)))
  {
    var headers := CsvHeaders(fields);
    var lines := CsvLines(contacts, fields);
    forall k | 0 <= k < |lines| ensures '\n' !in lines[k] {
      if k == 0 {
        JoinAvoids(headers, ",", '\n');
      } else {
        RowAvoids(contacts[k - 1], headers, '\n');
      }
    }
    SplitJoin(lines, '\n');
    forall i | 0 <= i < |contacts|
      ensures ReadRow(lines[i + 1]) == Some(RowValues(contacts[i], headers))
    {
      ReadQuotedRow(RowValues(contacts[i], headers));
    }
  }
}
