/**
 * The profile page's CSV export: a header line and one line per shift,
 * fields joined by `;`, lines by a line feed, the whole prefixed with a
 * byte-order mark. Fields are neither quoted nor escaped.
 */
module ProfileExport {
  import opened Wrappers
  import opened Seqs
  import opened Calendar
  import opened Types
  import opened Text

  const FieldSeparator: char := ';'
  const LineSeparator: char := '\n'
  /** U+FEFF, so that spreadsheet programs read the file as UTF-8. */
  const ByteOrderMark: char := '\U{FEFF}'

  /** The nine column titles, in order. */
  const Headers: seq<string> := [
    "Datum", "Wochentag", "Betrag (\U{20AC})", "Schicht", "Mitarbeiter",
    "Umsatz (\U{20AC})", "\U{20AC}/Stunde", "Tip %", "Notiz"]

  /** The decimal digits of `n`, most significant first. */
  function Digits(n: nat): (r: string)
    ensures r != []
    ensures forall i :: 0 <= i < |r| ==> '0' <= r[i] <= '9'
  {
    var last := ['0' + (n % 10) as char];
    if n < 10 then last else Digits(n / 10) + last
  }

  /** `n` in decimal, left-padded with zeros to `width` digits, with a minus sign when negative. */
  function Padded(n: int, width: nat): (r: string)
    ensures forall i :: 0 <= i < |r| ==> ('0' <= r[i] <= '9' || r[i] == '-')
    ensures 0 <= n ==> |r| >= width
  {
    var d := Digits(if n < 0 then -n else n);
    var zeros := seq(if |d| < width then width - |d| else 0, _ => '0');
    (if n < 0 then "-" else "") + zeros + d
  }

  /** The stored `datum` text, `YYYY-MM-DD`. */
  function IsoDate(d: Date): (r: string)
    ensures FieldSeparator !in r && LineSeparator !in r
  {
    var r := Padded(d.year, 4) + "-" + Padded(d.month0 + 1, 2) + "-" + Padded(d.day, 2);
    assert forall i :: 0 <= i < |r| ==> ('0' <= r[i] <= '9' || r[i] == '-');
    r
  }

  /** The `schicht` column: `'f'` is "Früh", `'s'` is "Spät", anything else is empty. */
  function KindLabel(k: ShiftKind): (r: string)
    ensures k == Early ==> r == "Fr\U{FC}h"
    ensures k == Late ==> r == "Sp\U{E4}t"
    ensures k == NoKind ==> r == ""
  {
    match k
    case Early => "Fr\U{FC}h"
    case Late => "Sp\U{E4}t"
    case NoKind => ""
  }

  /** `x || ''` for an optional number: absent and `0` are both falsy and give the empty field. */
  function FalsyBlank(x: Option<real>, num: real -> string): (r: string)
    ensures x.None? || x == Some(0.0) ==> r == ""
    ensures x.Some? && x.value != 0.0 ==> r == num(x.value)
  {
    if x.Some? && x.value != 0.0 then num(x.value) else ""
  }

  /**
   * The nine fields of a shift's row. `num` is JavaScript's conversion of a
   * number to text, which `join` applies to the numeric fields.
   */
  function Row(s: Shift, num: real -> string): (r: seq<string>)
    ensures |r| == |Headers|
    ensures r[0] == IsoDate(s.datum) && r[1] == s.wochentag && r[2] == num(s.betrag)
    ensures r[3] == KindLabel(s.schicht)
    ensures r[4] == FalsyBlank(s.mitarbeiter, num) && r[5] == FalsyBlank(s.umsatz, num)
    ensures r[6] == num(s.euroProStunde) && r[7] == num(s.tipProzent)
    ensures r[8] == s.notiz.GetOr("")
  {
    [IsoDate(s.datum), s.wochentag, num(s.betrag), KindLabel(s.schicht),
     FalsyBlank(s.mitarbeiter, num), FalsyBlank(s.umsatz, num),
     num(s.euroProStunde), num(s.tipProzent), s.notiz.GetOr("")]
  }

  /** The header row followed by every shift's row, in input order. */
  function Table(shifts: seq<Shift>, num: real -> string): (t: seq<seq<string>>)
    ensures |t| == |shifts| + 1 && t[0] == Headers
    ensures forall i :: 0 <= i < |shifts| ==> t[i + 1] == Row(shifts[i], num)
  {
    [Headers] + Map(shifts, (s: Shift) => Row(s, num))
  }

  /** Each row joined by `;`. */
  function Lines(table: seq<seq<string>>): (ls: seq<string>)
    ensures |ls| == |table|
    ensures forall i :: 0 <= i < |table| ==> ls[i] == Join(table[i], FieldSeparator)
  {
    Map(table, (row: seq<string>) => Join(row, FieldSeparator))
  }

  /**
   * `handleExport`'s text: nothing for an absent or empty list, otherwise
   * the byte-order mark followed by the lines joined by line feeds.
   */
  function ExportCsv(shifts: Option<seq<Shift>>, num: real -> string): (csv: Option<string>)
    ensures csv.None? <==> shifts.None? || shifts.value == []
    ensures csv.Some? ==> csv.value == [ByteOrderMark] + Join(Lines(Table(shifts.value, num)), LineSeparator)
  {
    if shifts.None? || |shifts.value| == 0 then None
    else Some([ByteOrderMark] + Join(Lines(Table(shifts.value, num)), LineSeparator))
  }

  /** No field of the row holds a separator. */
  predicate Clean(row: seq<string>) {
    forall k :: 0 <= k < |row| ==> FieldSeparator !in row[k] && LineSeparator !in row[k]
  }

  /** The column titles hold neither separator. */
  lemma HeadersAreClean()
    ensures Clean(Headers)
  {
    forall k | 0 <= k < |Headers|
      ensures FieldSeparator !in Headers[k] && LineSeparator !in Headers[k]
    {
    }
  }

  /** With clean shift rows, every row of the table is clean (the titles are). */
  lemma TableIsClean(shifts: seq<Shift>, num: real -> string)
    requires forall i :: 0 <= i < |shifts| ==> Clean(Row(shifts[i], num))
    ensures forall i :: 0 <= i < |shifts| + 1 ==> Clean(Table(shifts, num)[i])
  {
    var table := Table(shifts, num);
    HeadersAreClean();
    forall i | 0 <= i < |table|
      ensures Clean(table[i])
    {
      if i > 0 {
        assert table[i] == Row(shifts[i - 1], num);
      }
    }
  }

  /** Clean rows, joined by `;` and then by line feeds, split back into the same rows. */
  lemma LinesReadBack(table: seq<seq<string>>)
    requires table != []
    requires forall i :: 0 <= i < |table| ==> table[i] != [] && Clean(table[i])
    ensures Split(Join(Lines(table), LineSeparator), LineSeparator) == Lines(table)
    ensures forall i :: 0 <= i < |table| ==> Split(Lines(table)[i], FieldSeparator) == table[i]
  {
    var lines := Lines(table);
    forall i | 0 <= i < |lines|
      ensures LineSeparator !in lines[i]
      ensures Split(lines[i], FieldSeparator) == table[i]
    {
      JoinAvoids(table[i], FieldSeparator, LineSeparator);
      SplitJoin(table[i], FieldSeparator);
    }
    SplitJoin(lines, LineSeparator);
  }

  /**
   * When no field holds `;` or a line feed, reading the export back
   * (dropping the mark, splitting at line feeds, then at `;`) gives exactly
   * the header and then each shift's nine fields in input order.
   */
  lemma ExportReadsBack(shifts: seq<Shift>, num: real -> string)
    requires shifts != []
    requires forall i :: 0 <= i < |shifts| ==> Clean(Row(shifts[i], num))
    ensures var csv := ExportCsv(Some(shifts), num).value;
      var lines := Split(csv[1..], LineSeparator);
      && csv[0] == ByteOrderMark
      && |lines| == |shifts| + 1
      && Split(lines[0], FieldSeparator) == Headers
      && forall i :: 0 <= i < |shifts| ==> Split(lines[i + 1], FieldSeparator) == Row(shifts[i], num)
  {
    var table := Table(shifts, num);
    TableIsClean(shifts, num);
    forall i | 0 <= i < |table|
      ensures table[i] != []
    {
      if i > 0 {
        assert |table[i]| == |Row(shifts[i - 1], num)|;
      }
    }
    LinesReadBack(table);
    var csv := ExportCsv(Some(shifts), num).value;
    assert csv[1..] == Join(Lines(table), LineSeparator);
  }

  /**
   * Fields are not quoted: a note holding `;` makes its line read back as
   * ten fields instead of nine.
   */
  lemma NoteWithSeparatorShiftsColumns(s: Shift, num: real -> string)
    requires s.notiz == Some("a;b")
    requires forall k :: 0 <= k < 8 ==> FieldSeparator !in Row(s, num)[k]
    ensures |Split(Join(Row(s, num), FieldSeparator), FieldSeparator)| == 10
  {
    var row := Row(s, num);
    var front := row[..8];
    assert row == front + ["a;b"];
    var split := front + ["a", "b"];
    assert forall k :: 0 <= k < |split| ==> FieldSeparator !in split[k];
    JoinSnoc(front, "a;b", FieldSeparator);
    JoinSnoc(front, "a", FieldSeparator);
    assert split == (front + ["a"]) + ["b"];
    JoinSnoc(front + ["a"], "b", FieldSeparator);
    assert "a;b" == "a" + [FieldSeparator] + "b";
    assert Join(row, FieldSeparator) == Join(split, FieldSeparator);
    SplitJoin(split, FieldSeparator);
  }

  /** Joining with one more field appends the separator and the field. */
  lemma {:induction false} JoinSnoc(fields: seq<string>, f: string, sep: char)
    requires fields != []
    ensures Join(fields + [f], sep) == Join(fields, sep) + [sep] + f
  {
    if |fields| > 1 {
      assert (fields + [f])[1..] == fields[1..] + [f];
      JoinSnoc(fields[1..], f, sep);
    }
  }

  /** A revenue of 0 is exported as an empty field, like a missing one. */
  lemma ZeroRevenueIsBlank(s: Shift, num: real -> string)
    requires s.umsatz == Some(0.0)
    ensures Row(s, num)[5] == Row(s.(umsatz := None), num)[5] == ""
  {
  }
}
