/**
 * The CSV download of a session's stored events (`eventsToCsv` in the report routes): a fixed
 * header line, then one line per event with four double-quoted fields, lines joined by `\n`.
 * Only the details field has its double quotes doubled.
 */
module Report {
  import opened Wrappers
  import opened Strings

  /**
   * The stored `details` value. An object (or `null`) is written as its `JSON.stringify` text,
   * which is given here; any other value is written as `String(value)` when it is truthy and as
   * the empty string when it is falsy or missing.
   */
  datatype StoredDetails =
    | Structured(json: string)
    | Primitive(text: string, truthy: bool)
    | Missing

  /**
   * A stored event as the report reads it. `timestamp` is the text `toISOString` gives for the
   * stored date; a missing `eventType` or `candidateName` is `None`.
   */
  datatype StoredEvent = StoredEvent(timestamp: string, eventType: Option<string>,
                                     candidateName: Option<string>, details: StoredDetails)

  /** The header line, `header.join(',')` over the four column names. */
  const Header: string := "timestamp,eventType,candidateName,details"

  /** Four parts joined by one separator. */
  lemma JoinFour(a: string, b: string, c: string, d: string, sep: char)
    ensures Join([a, b, c, d], sep) == a + [sep] + (b + [sep] + (c + [sep] + d))
  {
    assert [a, b, c, d][1..] == [b, c, d];
    assert [b, c, d][1..] == [c, d];
    assert [c, d][1..] == [d];
    assert Join([c, d], sep) == c + [sep] + d;
    assert Join([b, c, d], sep) == b + [sep] + (c + [sep] + d);
  }

  /** `value || ''` for a string that may be missing. */
  function OrEmpty(s: Option<string>): string {
    if s.Some? then s.value else ""
  }

  /** The details text before escaping. */
  function DetailsText(d: StoredDetails): string {
    match d
    case Structured(json) => json
    case Primitive(text, truthy) => if truthy then text else ""
    case Missing => ""
  }

  /** `s.replace(/"/g, '""')`: every double quote doubled, everything else kept. */
  function Escape(s: string): (r: string)
    ensures |r| >= |s|
    decreases |s|
  {
    if s == [] then ""
    else
      (if s[0] == '"' then "\"\"" else [s[0]]) + Escape(s[1..])
  }

  /** `s.replace(/""/g, '"')`: each pair of double quotes, read left to right, becomes one. */
  function Unescape(s: string): string
    decreases |s|
  {
    if s == [] then ""
    else if |s| >= 2 && s[0] == '"' && s[1] == '"' then "\"" + Unescape(s[2..])
    else [s[0]] + Unescape(s[1..])
  }

  function Quote(s: string): string {
    "\"" + s + "\""
  }

  /** The four fields of an event's line, unquoted and unescaped, in column order. */
  function Fields(ev: StoredEvent): seq<string> {
    [ev.timestamp, OrEmpty(ev.eventType), OrEmpty(ev.candidateName), DetailsText(ev.details)]
  }

  /** One event's line: the timestamp, type and name quoted as they are, the details escaped and quoted. */
  function Row(ev: StoredEvent): (r: string)
    ensures |r| == |ev.timestamp| + |OrEmpty(ev.eventType)| + |OrEmpty(ev.candidateName)| +
                   |Escape(DetailsText(ev.details))| + 11
    ensures r[0] == '"' && r[|r| - 1] == '"'
  {
    JoinFour(Quote(ev.timestamp), Quote(OrEmpty(ev.eventType)), Quote(OrEmpty(ev.candidateName)),
             Quote(Escape(DetailsText(ev.details))), ',');
    Join([Quote(ev.timestamp), Quote(OrEmpty(ev.eventType)), Quote(OrEmpty(ev.candidateName)),
          Quote(Escape(DetailsText(ev.details)))], ',')
  }

  /** `events.map(row)`. */
  function Rows(evs: seq<StoredEvent>): (r: seq<string>)
    ensures |r| == |evs|
    decreases |evs|
  {
    if evs == [] then [] else [Row(evs[0])] + Rows(evs[1..])
  }

  /** Every event adds a line of at least eleven characters and the newline before it. */
  lemma {:induction false} JoinRowsLength(evs: seq<StoredEvent>)
    ensures |Join(Rows(evs), '\n')| >= 12 * |evs| - 1
    decreases |evs|
  {
    if |evs| >= 2 {
      JoinRowsLength(evs[1..]);
      assert Rows(evs)[1..] == Rows(evs[1..]);
    }
  }

  /** The whole report: the header line and then the rows, joined by newlines. */
  function EventsToCsv(evs: seq<StoredEvent>): (r: string)
    ensures |r| >= |Header| + 12 * |evs|
  {
    JoinRowsLength(evs);
    assert ([Header] + Rows(evs))[1..] == Rows(evs);
    Join([Header] + Rows(evs), '\n')
  }

  // ---------------------------------------------------------------------------------------
  // Reading a line back: double-quoted fields separated by commas, `""` standing for `"`.
  // ---------------------------------------------------------------------------------------

  /**
   * The rest of a quoted field after its opening quote: the field's value and what follows the
   * closing quote, or `None` when the closing quote is missing.
   */
  function ParseQuoted(s: string): (r: Option<(string, string)>)
    ensures r.Some? ==> |r.value.1| < |s|
    decreases |s|
  {
    if s == [] then None
    else if s[0] == '"' then
      if |s| >= 2 && s[1] == '"' then
        match ParseQuoted(s[2..])
        case None => None
        case Some((v, rest)) => Some(("\"" + v, rest))
      else Some(("", s[1..]))
    else
      match ParseQuoted(s[1..])
      case None => None
      case Some((v, rest)) => Some(([s[0]] + v, rest))
  }

  /** The values of a line of quoted fields, or `None` when the line is not of that form. */
  function ParseFields(s: string): (r: Option<seq<string>>)
    ensures r.Some? ==> |r.value| >= 1
    decreases |s|
  {
    if s == [] || s[0] != '"' then None
    else
      match ParseQuoted(s[1..])
      case None => None
      case Some((v, rest)) =>
        if rest == [] then Some([v])
        else if rest[0] != ',' then None
        else
          match ParseFields(rest[1..])
          case None => None
          case Some(vs) => Some([v] + vs)
  }

  // ---------------------------------------------------------------------------------------
  // Escaping
  // ---------------------------------------------------------------------------------------

  /** Undoing the doubling recovers the details text exactly. */
  lemma {:induction false} UnescapeEscape(s: string)
    ensures Unescape(Escape(s)) == s
    decreases |s|
  {
    if s != [] {
      UnescapeEscape(s[1..]);
      var t := Escape(s[1..]);
      if s[0] == '"' {
        assert ("\"\"" + t)[2..] == t;
      } else {
        assert ([s[0]] + t)[1..] == t;
      }
      assert [s[0]] + s[1..] == s;
    }
  }

  /** Escaping adds exactly one character per double quote in the details text. */
  lemma {:induction false} EscapeDoublesQuotes(s: string)
    ensures |Escape(s)| == |s| + multiset(s)['"']
    decreases |s|
  {
    if s != [] {
      EscapeDoublesQuotes(s[1..]);
      assert s == [s[0]] + s[1..];
      assert multiset(s) == multiset([s[0]]) + multiset(s[1..]);
    }
  }

  /** Escaping adds and removes no character other than double quotes. */
  lemma {:induction false} EscapeKeeps(s: string, c: char)
    requires c != '"'
    ensures c in Escape(s) <==> c in s
    decreases |s|
  {
    if s != [] {
      EscapeKeeps(s[1..], c);
      var head := if s[0] == '"' then "\"\"" else [s[0]];
      assert Escape(s) == head + Escape(s[1..]);
      assert c in s <==> c == s[0] || c in s[1..] by {
        }
    }
  }

  /** A text without double quotes is left as it is. */
  lemma {:induction false} EscapeWithoutQuotes(s: string)
    requires '"' !in s
    ensures Escape(s) == s
    decreases |s|
  {
    if s != [] {
      EscapeWithoutQuotes(s[1..]);
      assert [s[0]] + s[1..] == s;
    }
  }

  /** An escaped value followed by a closing quote reads back as the value and what follows. */
  lemma {:induction false} ParseQuotedEscape(x: string, rest: string)
    requires rest == [] || rest[0] != '"'
    ensures ParseQuoted(Escape(x) + "\"" + rest) == Some((x, rest))
    decreases |x|
  {
    var s := Escape(x) + "\"" + rest;
    if x == [] {
      assert s == "\"" + rest;
      assert s[1..] == rest;
    } else {
      var tail := Escape(x[1..]) + "\"" + rest;
      ParseQuotedEscape(x[1..], rest);
      if x[0] == '"' {
        assert s == "\"\"" + tail;
        assert s[2..] == tail;
      } else {
        assert s == [x[0]] + tail;
        assert s[1..] == tail;
      }
      assert [x[0]] + x[1..] == x;
    }
  }

  /** What a quoted field consumes is its value escaped, then the closing quote. */
  lemma {:induction false} ParseQuotedConsumes(s: string)
    ensures var r := ParseQuoted(s);
      r.Some? ==> s == Escape(r.value.0) + "\"" + r.value.1
    decreases |s|
  {
    if s != [] {
      if s[0] == '"' {
        if |s| >= 2 && s[1] == '"' {
          ParseQuotedConsumes(s[2..]);
          var r := ParseQuoted(s[2..]);
          if r.Some? {
            var v := r.value.0;
            assert ("\"" + v)[1..] == v;
            assert Escape("\"" + v) == "\"\"" + Escape(v);
            assert s == "\"\"" + s[2..];
          }
        }
      } else {
        ParseQuotedConsumes(s[1..]);
        var r := ParseQuoted(s[1..]);
        if r.Some? {
          var v := r.value.0;
          assert ([s[0]] + v)[1..] == v;
          assert Escape([s[0]] + v) == [s[0]] + Escape(v);
          assert s == [s[0]] + s[1..];
        }
      }
    }
  }

  /** A line that reads back as one field is that field, escaped and quoted. */
  lemma ParseFieldsSingle(s: string, x: string)
    requires ParseFields(s) == Some([x])
    ensures s == Quote(Escape(x))
  {
    ParseQuotedConsumes(s[1..]);
    assert s == [s[0]] + s[1..];
  }

  /** A line that starts with one escaped, quoted field reads back as that field and the rest. */
  lemma ParseFieldsCons(x: string, tail: string)
    ensures ParseFields(Quote(Escape(x)) + "," + tail) ==
      match ParseFields(tail)
      case None => None
      case Some(vs) => Some([x] + vs)
  {
    var s := Quote(Escape(x)) + "," + tail;
    assert s[1..] == Escape(x) + "\"" + ("," + tail);
    ParseQuotedEscape(x, "," + tail);
    assert ("," + tail)[1..] == tail;
  }

  lemma ParseFieldsLast(x: string)
    ensures ParseFields(Quote(Escape(x))) == Some([x])
  {
    var s := Quote(Escape(x));
    assert s[1..] == Escape(x) + "\"" + "";
    ParseQuotedEscape(x, "");
  }

  // ---------------------------------------------------------------------------------------
  // Properties of the report
  // ---------------------------------------------------------------------------------------

  /**
   * A row reads back as the event's four fields, provided the timestamp, type and name hold no
   * double quote (those three are not escaped).
   */
  lemma RowReadsBack(ev: StoredEvent)
    requires '"' !in ev.timestamp && '"' !in OrEmpty(ev.eventType) && '"' !in OrEmpty(ev.candidateName)
    ensures ParseFields(Row(ev)) == Some(Fields(ev))
  {
    var a, b, c, d := ev.timestamp, OrEmpty(ev.eventType), OrEmpty(ev.candidateName), DetailsText(ev.details);
    EscapeWithoutQuotes(a);
    EscapeWithoutQuotes(b);
    EscapeWithoutQuotes(c);
    var qd := Quote(Escape(d));
    var qc := Quote(Escape(c)) + "," + qd;
    var qb := Quote(Escape(b)) + "," + qc;
    JoinFour(Quote(a), Quote(b), Quote(c), qd, ',');
    assert Row(ev) == Quote(Escape(a)) + "," + qb;
    ParseFieldsLast(d);
    ParseFieldsCons(c, qd);
    assert ParseFields(qc) == Some([c] + [d]);
    ParseFieldsCons(b, qc);
    assert ParseFields(qb) == Some([b] + ([c] + [d]));
    ParseFieldsCons(a, qb);
    ConsFour(a, b, c, d);
  }

  lemma ConsFour(a: string, b: string, c: string, d: string)
    ensures [a] + ([b] + ([c] + [d])) == [a, b, c, d]
  {
  }

  /** The name field `"""` followed by the empty details field never closes its quote. */
  lemma BrokenFieldUnclosed()
    ensures ParseQuoted((Quote("\"") + "," + Quote(""))[1..]) == None
  {
    var broken := Quote("\"") + "," + Quote("");
    assert broken == "\"\"\",\"\"";
    assert ParseQuoted("\"\"") == None;
    assert ParseQuoted(",\"\"") == None;
  }

  /**
   * Read back as itself, a value holding a double quote leaves less text after its closing quote
   * than followed it in the line: one of its quotes was taken for the closing one.
   */
  lemma NameFieldShortensRest(c: string, x: string)
    requires '"' in c
    requires ParseQuoted(c + "\"" + x).Some? && ParseQuoted(c + "\"" + x).value.0 == c
    ensures |ParseQuoted(c + "\"" + x).value.1| < |x|
  {
    ParseQuotedConsumes(c + "\"" + x);
    EscapeDoublesQuotes(c);
    assert multiset(c)['"'] > 0;
  }

  /**
   * The last two fields of a row, a name holding a double quote and the escaped details, never
   * read back as that name and those details.
   */
  lemma QuotedNameFieldMisreads(c: string, d: string)
    requires '"' in c
    ensures ParseFields(Quote(c) + "," + Quote(Escape(d))) != Some([c, d])
  {
    var qd := Quote(Escape(d));
    var tail, x := Quote(c) + "," + qd, "," + qd;
    assert tail[1..] == c + "\"" + x;
    var r := ParseQuoted(tail[1..]);
    if r.Some? {
      var v, rest := r.value.0, r.value.1;
      if rest != [] && rest[0] == ',' && ParseFields(rest[1..]).Some? {
        var vs := ParseFields(rest[1..]).value;
        assert ParseFields(tail) == Some([v] + vs);
        if [v] + vs == [c, d] {
          assert ([v] + vs)[0] == v && ([v] + vs)[1..] == vs;
          ParseFieldsSingle(rest[1..], d);
          assert rest == [rest[0]] + rest[1..];
          NameFieldShortensRest(c, x);
          assert false;
        }
      }
    }
  }

  /** A row as its first two quoted fields, then the name and details fields. */
  lemma RowParts(ev: StoredEvent)
    ensures Row(ev) == Quote(ev.timestamp) + "," + (Quote(OrEmpty(ev.eventType)) + "," +
      (Quote(OrEmpty(ev.candidateName)) + "," + Quote(Escape(DetailsText(ev.details)))))
  {
    JoinFour(Quote(ev.timestamp), Quote(OrEmpty(ev.eventType)), Quote(OrEmpty(ev.candidateName)),
             Quote(Escape(DetailsText(ev.details))), ',');
  }

  /** Two leading fields without double quotes read back as themselves, before the rest. */
  lemma ParseTwoPlainFields(a: string, b: string, tail: string)
    requires '"' !in a && '"' !in b
    ensures ParseFields(Quote(a) + "," + (Quote(b) + "," + tail)) ==
      match ParseFields(tail)
      case None => None
      case Some(vs) => Some([a, b] + vs)
  {
    EscapeWithoutQuotes(a);
    EscapeWithoutQuotes(b);
    ParseFieldsCons(b, tail);
    ParseFieldsCons(a, Quote(b) + "," + tail);
    var p := ParseFields(tail);
    if p.Some? {
      assert [a] + ([b] + p.value) == [a, b] + p.value;
    }
  }

  /**
   * A double quote in the candidate name, which is not escaped, means the row never reads back as
   * the event's fields: the row either is no line of quoted fields at all or reads back as other
   * fields (the name `a""b` reads back as `a"b`). The timestamp and type are taken free of double
   * quotes, so the name is what goes wrong.
   */
  lemma QuoteInNameMisreads(ev: StoredEvent)
    requires '"' in OrEmpty(ev.candidateName)
    requires '"' !in ev.timestamp && '"' !in OrEmpty(ev.eventType)
    ensures ParseFields(Row(ev)) != Some(Fields(ev))
  {
    var a, b, c, d := ev.timestamp, OrEmpty(ev.eventType), OrEmpty(ev.candidateName), DetailsText(ev.details);
    var tail := Quote(c) + "," + Quote(Escape(d));
    RowParts(ev);
    ParseTwoPlainFields(a, b, tail);
    QuotedNameFieldMisreads(c, d);
    var p := ParseFields(tail);
    if p.Some? {
      assert ([a, b] + p.value)[2..] == p.value;
    }
  }

  /** The name `a""b` is an instance where the row reads back as four fields, the name as `a"b`. */
  lemma DoubledQuoteInNameMisreads()
    ensures ParseFields(Row(StoredEvent("t", Some("e"), Some("a\"\"b"), Missing))) ==
      Some(["t", "e", "a\"b", ""])
  {
    var ev := StoredEvent("t", Some("e"), Some("a\"\"b"), Missing);
    EscapeWithoutQuotes("t");
    EscapeWithoutQuotes("e");
    assert Escape("a\"b") == "a\"\"b" by {
      assert "a\"b"[1..] == "\"b";
      assert "\"b"[1..] == "b";
      assert "b"[1..] == "";
    }
    var last := Quote(Escape(""));
    var tail := Quote(Escape("a\"b")) + "," + last;
    var qb := Quote(Escape("e")) + "," + tail;
    JoinFour(Quote("t"), Quote("e"), Quote("a\"\"b"), last, ',');
    assert Row(ev) == Quote(Escape("t")) + "," + qb;
    ParseFieldsLast("");
    ParseFieldsCons("a\"b", last);
    ParseFieldsCons("e", tail);
    ParseFieldsCons("t", qb);
    ConsFour("t", "e", "a\"b", "");
  }

  /**
   * The name `"` is an instance where the row is no line of quoted fields at all: the closing
   * quote of the details field is never found.
   */
  lemma QuoteInNameBreaksRow()
    ensures ParseFields(Row(StoredEvent("t", Some("e"), Some("\""), Missing))) == None
  {
    var ev := StoredEvent("t", Some("e"), Some("\""), Missing);
    var broken := Quote("\"") + "," + Quote("");
    EscapeWithoutQuotes("t");
    EscapeWithoutQuotes("e");
    JoinFour(Quote("t"), Quote("e"), Quote("\""), Quote(Escape("")), ',');
    assert Row(ev) == Quote(Escape("t")) + "," + (Quote(Escape("e")) + "," + broken);
    BrokenFieldUnclosed();
    ParseFieldsCons("e", broken);
    ParseFieldsCons("t", Quote(Escape("e")) + "," + broken);
  }

  /** The report starts with the header line: the header, then a newline or the end of the text. */
  lemma CsvStartsWithHeader(evs: seq<StoredEvent>)
    ensures var csv, h := EventsToCsv(evs), Header;
      |csv| >= |h| && csv[..|h|] == h && (|csv| == |h| || csv[|h|] == '\n') &&
      (evs == [] ==> csv == h)
  {
    var lines := [Header] + Rows(evs);
    if evs == [] {
      assert lines == [Header];
    } else {
      assert lines[1..] == Rows(evs);
      assert EventsToCsv(evs) == Header + "\n" + Join(Rows(evs), '\n');
    }
  }

  /** Each event gives the row at its own position. */
  lemma {:induction false} RowsInOrder(evs: seq<StoredEvent>)
    ensures forall i :: 0 <= i < |evs| ==> Rows(evs)[i] == Row(evs[i])
    decreases |evs|
  {
    if evs != [] {
      RowsInOrder(evs[1..]);
      forall i | 0 < i < |evs|
        ensures Rows(evs)[i] == Row(evs[i])
      {
        assert Rows(evs)[i] == Rows(evs[1..])[i - 1];
      }
    }
  }

  /** No field holds a newline, so the event's row holds none either. */
  predicate SingleLine(ev: StoredEvent) {
    forall i :: 0 <= i < |Fields(ev)| ==> '\n' !in Fields(ev)[i]
  }

  lemma RowSingleLine(ev: StoredEvent)
    requires SingleLine(ev)
    ensures '\n' !in Row(ev)
  {
    var fs := Fields(ev);
    assert '\n' !in fs[3];
    EscapeKeeps(fs[3], '\n');
    var quoted := [Quote(fs[0]), Quote(fs[1]), Quote(fs[2]), Quote(Escape(fs[3]))];
    forall i | 0 <= i < 4
      ensures '\n' !in quoted[i]
    {
      assert '\n' !in fs[i];
    }
    JoinExcludes(quoted, ',', '\n');
  }

  /**
   * When no field holds a newline, splitting the report at newlines gives the header and then
   * exactly one line per event, in the events' order.
   */
  lemma CsvLines(evs: seq<StoredEvent>)
    requires forall i :: 0 <= i < |evs| ==> SingleLine(evs[i])
    ensures var lines := Split(EventsToCsv(evs), '\n');
      |lines| == |evs| + 1 && lines[0] == Header &&
      forall i :: 0 <= i < |evs| ==> lines[i + 1] == Row(evs[i])
  {
    RowsInOrder(evs);
    RowsSingleLine(evs);
    assert '\n' !in Header;
    SplitHeaderAndRows(Header, Rows(evs));
  }

  lemma SplitHeaderAndRows(header: string, rows: seq<string>)
    requires '\n' !in header
    requires forall i :: 0 <= i < |rows| ==> '\n' !in rows[i]
    ensures Split(Join([header] + rows, '\n'), '\n') == [header] + rows
  {
    var lines := [header] + rows;
    forall k | 0 <= k < |lines|
      ensures '\n' !in lines[k]
    {
      if k > 0 {
        assert lines[k] == rows[k - 1];
      }
    }
    SplitJoin(lines, '\n');
  }

  lemma RowsSingleLine(evs: seq<StoredEvent>)
    requires forall i :: 0 <= i < |evs| ==> SingleLine(evs[i])
    ensures forall i :: 0 <= i < |evs| ==> '\n' !in Rows(evs)[i]
  {
    RowsInOrder(evs);
    forall i | 0 <= i < |evs|
      ensures '\n' !in Rows(evs)[i]
    {
      RowSingleLine(evs[i]);
    }
  }

  /**
   * When no field holds a newline and only the details hold double quotes, every line after the
   * header reads back as the matching event's four fields.
   */
  lemma CsvReadsBack(evs: seq<StoredEvent>)
    requires forall i :: 0 <= i < |evs| ==> SingleLine(evs[i])
    requires forall i :: 0 <= i < |evs| ==>
      '"' !in evs[i].timestamp && '"' !in OrEmpty(evs[i].eventType) && '"' !in OrEmpty(evs[i].candidateName)
    ensures var lines := Split(EventsToCsv(evs), '\n');
      |lines| == |evs| + 1 && lines[0] == Header &&
      forall i :: 0 <= i < |evs| ==> ParseFields(lines[i + 1]) == Some(Fields(evs[i]))
  {
    CsvLines(evs);
    forall i | 0 <= i < |evs|
      ensures ParseFields(Row(evs[i])) == Some(Fields(evs[i]))
    {
      RowReadsBack(evs[i]);
    }
  }
}
