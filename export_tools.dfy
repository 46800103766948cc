/** The exports of the booking list: a semicolon-separated text with a header line and one
    line per booking (dates as dd.MM.yyyy, the flag as WAHR/FALSCH, a decimal comma in the two
    amounts, nothing quoted), and the ten-cell rows of the PDF table. How a number is written
    (`toString`) and how an amount is formatted as currency are parameters. */
module ExportTools {
  import opened Values
  import opened Text
  import opened Calendar
  import opened Sequences
  import opened Bookings
  import CsvUploader

  /** `headers` of `exportToCSV`. */
  const CsvHeaders: seq<string> := [
    "Buchungscode", "Buchungsdatum", "Anreise", "Abreise", "Stadt", "Unterkunft", "Region",
    "Gesamtpreis", "Erwachsene", "Kinder", "Personen", "Land", "PLZ", "Stadt (Kunde)",
    "Land (Service)", "Storniert", "Stornodatum", "Provision"]

  /** `value.toString().replace('.', ',')`: the first decimal point becomes a comma. */
  function DecimalComma(value: real, numberText: real -> string): string
  {
    ReplaceFirst(numberText(value), '.', ',')
  }

  /** `booking.cancelled ? 'WAHR' : 'FALSCH'`. */
  function CancelledText(cancelled: bool): string
  {
    if cancelled then "WAHR" else "FALSCH"
  }

  /** `booking.cancellationDate ? formatDate(booking.cancellationDate) : ''`. */
  function CancellationDateText(d: Option<Date>): (s: string)
    ensures s == "" <==> d.None?
  {
    if d.Some? then FormatDate(d.value) else ""
  }

  /** One row of `csvData`, field by field in the order of the headers. */
  function CsvRow(b: Booking, numberText: real -> string): (row: seq<string>)
    ensures |row| == |CsvHeaders| == 18
  {
    [b.bookingCode, FormatDate(b.bookingDate), FormatDate(b.arrivalDate), FormatDate(b.departureDate),
     b.serviceCity, b.serviceName, b.region, DecimalComma(b.totalPrice, numberText),
     IntToString(b.adults), IntToString(b.children), IntToString(b.persons),
     b.country, b.postalCode, b.city, b.serviceCountry,
     CancelledText(b.cancelled), CancellationDateText(b.cancellationDate),
     DecimalComma(b.commission, numberText)]
  }

  /** `row.join(';')`. */
  function CsvLine(b: Booking, numberText: real -> string): string
  {
    Join(CsvRow(b, numberText), ";")
  }

  function HeaderLine(): string
  {
    Join(CsvHeaders, ";")
  }

  /** `csvContent`: the header line and then one line per booking, joined by '\n'. */
  function CsvContent(data: seq<Booking>, numberText: real -> string): string
  {
    Join([HeaderLine()] + Map(data, (b: Booking) => CsvLine(b, numberText)), "\n")
  }

  /** No field of the booking's row holds the character `c`. */
  predicate RowAvoids(b: Booking, numberText: real -> string, c: char)
  {
    forall i :: 0 <= i < 18 ==> c !in CsvRow(b, numberText)[i]
  }

  /** A character no field holds is not in the booking's line. */
  lemma LineAvoids(b: Booking, numberText: real -> string, c: char)
    requires RowAvoids(b, numberText, c) && c != ';'
    ensures c !in CsvLine(b, numberText)
  {
    JoinAvoids(CsvRow(b, numberText), ";", c);
  }

  /** When no field holds a line break, the text splits back into the header line followed by
      each booking's line, in the order of the bookings. */
  lemma CsvLines(data: seq<Booking>, numberText: real -> string)
    requires forall b :: b in data ==> RowAvoids(b, numberText, '\n')
    ensures Split(CsvContent(data, numberText), '\n') == [HeaderLine()] + Map(data, (b: Booking) => CsvLine(b, numberText))
    ensures |Split(CsvContent(data, numberText), '\n')| == |data| + 1
  {
    var body := Map(data, (b: Booking) => CsvLine(b, numberText));
    var lines := [HeaderLine()] + body;
    assert "\n" == ['\n'];
    HeaderFields();
    BodyLinesAvoid(data, numberText, body);
    forall i | 0 <= i < |lines| ensures '\n' !in lines[i] {
      if i > 0 {
        assert lines[i] == body[i - 1];
      }
    }
    SplitJoin(lines, '\n');
  }

  /** No booking's line holds a line break when none of its fields does. */
  lemma BodyLinesAvoid(data: seq<Booking>, numberText: real -> string, body: seq<string>)
    requires forall b :: b in data ==> RowAvoids(b, numberText, '\n')
    requires body == Map(data, (b: Booking) => CsvLine(b, numberText))
    ensures forall i :: 0 <= i < |body| ==> '\n' !in body[i]
  {
    forall i | 0 <= i < |body| ensures '\n' !in body[i] {
      var b := data[i];
      assert b in data;
      LineAvoids(b, numberText, '\n');
    }
  }

  /** When no field holds a semicolon, a line splits back into the booking's eighteen fields,
      and the header line into the eighteen headers. */
  lemma CsvFields(b: Booking, numberText: real -> string)
    requires RowAvoids(b, numberText, ';')
    ensures Split(CsvLine(b, numberText), ';') == CsvRow(b, numberText)
    ensures Split(HeaderLine(), ';') == CsvHeaders
  {
    SplitJoin(CsvRow(b, numberText), ';');
    HeaderFields();
  }

  /** The header line splits back into the eighteen headers and holds no line break. */
  lemma HeaderFields()
    ensures Split(HeaderLine(), ';') == CsvHeaders
    ensures '\n' !in HeaderLine()
  {
    HeadersPlainFirst();
    HeadersPlainMiddle();
    HeadersPlainLast();
    SplitJoin(CsvHeaders, ';');
    JoinAvoids(CsvHeaders, ";", '\n');
  }

  /** No header holds a semicolon or a line break (in three parts of six headers each). */
  lemma HeadersPlainFirst()
    ensures forall i :: 0 <= i < 6 ==> ';' !in CsvHeaders[i] && '\n' !in CsvHeaders[i]
  {
  }

  lemma HeadersPlainMiddle()
    ensures forall i :: 6 <= i < 12 ==> ';' !in CsvHeaders[i] && '\n' !in CsvHeaders[i]
  {
  }

  lemma HeadersPlainLast()
    ensures forall i :: 12 <= i < 18 ==> ';' !in CsvHeaders[i] && '\n' !in CsvHeaders[i]
  {
  }

  /** Fields are not quoted: a semicolon inside a field (a city or accommodation name, say)
      makes the line split into more than eighteen fields. */
  lemma SemicolonShiftsColumns(b: Booking, numberText: real -> string)
    requires !RowAvoids(b, numberText, ';')
    ensures |Split(CsvLine(b, numberText), ';')| > 18
  {
    SplitJoinUnquoted(CsvRow(b, numberText), ';');
  }

  /** The flag column reads back through the importer's cell rule as the same flag. */
  lemma CancelledRoundTrip(b: Booking, numberText: real -> string)
    ensures CsvUploader.Transform(CsvRow(b, numberText)[15], "cancelled") == CsvUploader.Flag(b.cancelled)
  {
  }

  /** A date column reads back through the importer's cell rule as the date's ISO text. */
  lemma DateRoundTrip(d: Date, field: string)
    requires field == "arrivalDate" || field == "departureDate" || field == "cancellationDate"
    ensures CsvUploader.Transform(FormatDate(d), field) == CsvUploader.DateText(IsoDate(d))
  {
    var day := Pad(d.day as nat, 2);
    var month := Pad(d.month as nat, 2);
    var year := Pad(d.year as nat, 4);
    DigitsAvoid(day, '.');
    DigitsAvoid(month, '.');
    DigitsAvoid(year, '.');
    CsvUploader.GermanDateReordered(day, month, year, field);
  }

  /** The arrival, departure and cancellation columns read back as the dates they were written
      from; a missing cancellation date is written empty and read back as empty text. */
  lemma DatesRoundTrip(b: Booking, numberText: real -> string)
    ensures CsvUploader.Transform(CsvRow(b, numberText)[2], "arrivalDate") == CsvUploader.DateText(IsoDate(b.arrivalDate))
    ensures CsvUploader.Transform(CsvRow(b, numberText)[3], "departureDate") == CsvUploader.DateText(IsoDate(b.departureDate))
    ensures b.cancellationDate.Some? ==>
      CsvUploader.Transform(CsvRow(b, numberText)[16], "cancellationDate") == CsvUploader.DateText(IsoDate(b.cancellationDate.value))
    ensures b.cancellationDate.None? ==>
      CsvRow(b, numberText)[16] == "" && CsvUploader.Transform(CsvRow(b, numberText)[16], "cancellationDate") == CsvUploader.Text("")
  {
    var row := CsvRow(b, numberText);
    assert row[2] == FormatDate(b.arrivalDate) && row[3] == FormatDate(b.departureDate);
    assert row[16] == CancellationDateText(b.cancellationDate);
    DateRoundTrip(b.arrivalDate, "arrivalDate");
    DateRoundTrip(b.departureDate, "departureDate");
    if b.cancellationDate.Some? {
      DateRoundTrip(b.cancellationDate.value, "cancellationDate");
    } else {
      CsvUploader.EmptyCancellationDate();
    }
  }

  /** For number text without a comma (as `toString` writes numbers), the importer's first-comma
      swap undoes the export's first-point swap on both amounts. */
  lemma AmountsRoundTrip(b: Booking, numberText: real -> string)
    requires ',' !in numberText(b.totalPrice) && ',' !in numberText(b.commission)
    ensures CsvUploader.Transform(CsvRow(b, numberText)[7], "totalPrice") == CsvUploader.NumberText(numberText(b.totalPrice))
    ensures CsvUploader.Transform(CsvRow(b, numberText)[17], "commission") == CsvUploader.NumberText(numberText(b.commission))
  {
    var row := CsvRow(b, numberText);
    assert row[7] == DecimalComma(b.totalPrice, numberText) && row[17] == DecimalComma(b.commission, numberText);
    AmountRoundTrip(numberText(b.totalPrice), "totalPrice");
    AmountRoundTrip(numberText(b.commission), "commission");
  }

  /** An amount column reads back through the importer's cell rule as the number text it was
      written from, when that text has no comma. */
  lemma AmountRoundTrip(text: string, field: string)
    requires field == "totalPrice" || field == "commission"
    requires ',' !in text
    ensures CsvUploader.Transform(ReplaceFirst(text, '.', ','), field) == CsvUploader.NumberText(text)
  {
    ReplaceFirstRoundTrip(text, '.', ',');
  }

  /** The fields an exported file does not deliver back to the importer. */
  const UnreadFields: seq<string> := ["bookingCode", "serviceCity", "serviceName", "serviceCountry", "commission"]

  /** Only the importer's own headers for the unread fields map to them. */
  lemma UnreadFieldKeys(k: string)
    requires k in CsvUploader.HeaderMap && CsvUploader.HeaderMap[k] in UnreadFields
    ensures k in ["BookingCode", "ServiceCity", "Service Name (SolR)", "ServiceCountry", "Vertriebsprovision Netto"]
  {
  }

  /** An exported header is not one of the importer's names for the unread fields, and a header
      missing from the rename table is lower-cased, which none of them is. */
  lemma HeaderNotUnread(h: string)
    requires h in CsvHeaders
    ensures CsvUploader.TransformHeader(h) !in UnreadFields
  {
    var f := CsvUploader.TransformHeader(h);
    if h in CsvUploader.HeaderMap {
      if f in UnreadFields {
        UnreadFieldKeys(h);
        HeadersNotImporterOnly(h);
        assert false;
      }
    } else {
      assert !HasUpper(f) && |f| == |h|;
      assert IsUpper("bookingCode"[7]) && IsUpper("serviceCity"[7]) && IsUpper("serviceName"[7]) && IsUpper("serviceCountry"[7]);
      assert f[0] == LowerChar(h[0]);
      HeadersInitials(h);
    }
  }

  /** None of the exported headers is one of the importer's own headers for the unread fields. */
  lemma HeadersNotImporterOnly(h: string)
    requires h in CsvHeaders
    ensures h !in ["BookingCode", "ServiceCity", "Service Name (SolR)", "ServiceCountry", "Vertriebsprovision Netto"]
  {
  }

  /** No exported header starts with a 'c' or a 'C'. */
  lemma HeadersInitials(h: string)
    requires h in CsvHeaders
    ensures h[0] != 'c' && h[0] != 'C'
  {
  }

  /** The export is not read back field for field: the importer takes the 'Stadt' column, which
      holds the service city, for the customer's city, and no exported header becomes the
      booking code, the service city, the accommodation name, the service country or the
      commission. */
  lemma ExportHeadersOnImport()
    ensures CsvUploader.TransformHeader(CsvHeaders[4]) == "city"
    ensures forall i :: 0 <= i < 18 ==> CsvUploader.TransformHeader(CsvHeaders[i]) !in UnreadFields
  {
    assert CsvHeaders[4] == "Stadt";
    CsvUploader.KnownCustomerHeaders();
    forall i | 0 <= i < 18 ensures CsvUploader.TransformHeader(CsvHeaders[i]) !in UnreadFields {
      HeaderNotUnread(CsvHeaders[i]);
    }
  }

  // ---------------------------------------------------------------- PDF table

  /** The head row of the PDF table. */
  const PdfHead: seq<string> := [
    "Buchungscode", "Buchungsdatum", "Anreise", "Abreise", "Stadt", "Unterkunft",
    "Gesamtpreis", "Personen", "Storniert", "Provision"]

  /** One row of `tableData`. */
  function PdfRow(b: Booking, currency: real -> string): (row: seq<string>)
    ensures |row| == |PdfHead| == 10
  {
    [b.bookingCode, FormatDate(b.bookingDate), FormatDate(b.arrivalDate), FormatDate(b.departureDate),
     b.serviceCity, b.serviceName, currency(b.totalPrice), IntToString(b.persons),
     if b.cancelled then "Ja" else "Nein", currency(b.commission)]
  }

  /** `tableData`: one ten-cell row per booking, in the order of the bookings. */
  function PdfBody(data: seq<Booking>, currency: real -> string): (body: seq<seq<string>>)
    ensures |body| == |data|
    ensures forall i :: 0 <= i < |body| ==>
      && |body[i]| == 10
      && body[i][0] == data[i].bookingCode
      && (body[i][8] == "Ja" <==> data[i].cancelled)
  {
    Map(data, (b: Booking) => PdfRow(b, currency))
  }
}
