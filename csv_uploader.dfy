/** The CSV importer's per-header and per-cell rules: a fixed rename table for the export
    format's column headers with a lower-case fallback, and a cell transform that reorders
    German dates, reads the "WAHR" flag and swaps a decimal comma. Tokenising the file, turning
    date text into a `Date` and number text into a number are left to the host; a cell that is
    handed on to them is returned as the text they receive. */
module CsvUploader {
  import opened Values
  import opened Text

  /** `headerMap` of `transformHeader`. */
  const HeaderMap: map<string, string> := map[
    "BookingCode" := "bookingCode",
    "Buchungsdatum" := "bookingDate",
    "Anreise" := "arrivalDate",
    "Abreise" := "departureDate",
    "ServiceCity" := "serviceCity",
    "Service Name (SolR)" := "serviceName",
    "Region" := "region",
    "Gesamtpreis" := "totalPrice",
    "Erw." := "adults",
    "Kinder" := "children",
    "Personen" := "persons",
    "Land" := "country",
    "PLZ" := "postalCode",
    "Stadt" := "city",
    "ServiceCountry" := "serviceCountry",
    "Storniert" := "cancelled",
    "Stornodatum" := "cancellationDate",
    "Vertriebsprovision Netto" := "commission"
  ]

  /** `headerMap[header] || header.toLowerCase()`: every mapped name is non-empty, so the
      fallback applies exactly to the headers missing from the table. */
  function TransformHeader(header: string): (field: string)
    ensures header !in HeaderMap ==> field == ToLower(header) && !HasUpper(field)
    ensures header in HeaderMap ==> field == HeaderMap[header]
  {
    if header in HeaderMap && HeaderMap[header] != "" then HeaderMap[header] else ToLower(header)
  }

  /** Each of the eighteen known headers becomes its field name. */
  lemma KnownHeaders()
    ensures TransformHeader("BookingCode") == "bookingCode"
    ensures TransformHeader("Buchungsdatum") == "bookingDate"
    ensures TransformHeader("Anreise") == "arrivalDate"
    ensures TransformHeader("Abreise") == "departureDate"
    ensures TransformHeader("ServiceCity") == "serviceCity"
    ensures TransformHeader("Service Name (SolR)") == "serviceName"
    ensures TransformHeader("Region") == "region"
    ensures TransformHeader("Gesamtpreis") == "totalPrice"
    ensures TransformHeader("Erw.") == "adults"
    ensures TransformHeader("Kinder") == "children"
    ensures TransformHeader("Personen") == "persons"
    ensures TransformHeader("Land") == "country"
    ensures TransformHeader("PLZ") == "postalCode"
    ensures TransformHeader("Stadt") == "city"
    ensures TransformHeader("ServiceCountry") == "serviceCountry"
    ensures TransformHeader("Storniert") == "cancelled"
    ensures TransformHeader("Stornodatum") == "cancellationDate"
    ensures TransformHeader("Vertriebsprovision Netto") == "commission"
  {
    KnownBookingHeaders();
    KnownServiceHeaders();
    KnownStayHeaders();
    KnownCustomerHeaders();
  }

  /** The booking's code, its booking date and its arrival. */
  lemma KnownBookingHeaders()
    ensures TransformHeader("BookingCode") == "bookingCode"
    ensures TransformHeader("Buchungsdatum") == "bookingDate"
    ensures TransformHeader("Anreise") == "arrivalDate"
  {
  }

  /** The departure, the service city and the accommodation. */
  lemma KnownServiceHeaders()
    ensures TransformHeader("Abreise") == "departureDate"
    ensures TransformHeader("ServiceCity") == "serviceCity"
    ensures TransformHeader("Service Name (SolR)") == "serviceName"
  {
  }

  /** The region, price and party size. */
  lemma KnownStayHeaders()
    ensures TransformHeader("Region") == "region"
    ensures TransformHeader("Gesamtpreis") == "totalPrice"
    ensures TransformHeader("Erw.") == "adults"
    ensures TransformHeader("Kinder") == "children"
    ensures TransformHeader("Personen") == "persons"
    ensures TransformHeader("Land") == "country"
  {
  }

  /** The customer's address, the service country, the cancellation and the commission. */
  lemma KnownCustomerHeaders()
    ensures TransformHeader("PLZ") == "postalCode"
    ensures TransformHeader("Stadt") == "city"
    ensures TransformHeader("ServiceCountry") == "serviceCountry"
    ensures TransformHeader("Storniert") == "cancelled"
    ensures TransformHeader("Stornodatum") == "cancellationDate"
    ensures TransformHeader("Vertriebsprovision Netto") == "commission"
  {
  }

  /** Every key of the table has an upper-case letter, so no lower-cased header is a key. */
  lemma KeysHaveUpper(h: string)
    requires h in HeaderMap
    ensures HasUpper(h)
  {
    assert IsUpper(h[0]);
  }

  /** A header missing from the table is lower-cased, and transforming the result again
      changes nothing. */
  lemma UnknownHeaderStable(header: string)
    requires header !in HeaderMap
    ensures TransformHeader(header) == ToLower(header)
    ensures TransformHeader(TransformHeader(header)) == TransformHeader(header)
  {
    var lower := ToLower(header);
    ToLowerIdempotent(header);
    if lower in HeaderMap {
      KeysHaveUpper(lower);
    }
  }

  /** No header, known or not, becomes the field name "isCancelled". */
  lemma NeverIsCancelled(header: string)
    ensures TransformHeader(header) != "isCancelled"
  {
    var f := TransformHeader(header);
    if header in HeaderMap {
      assert HeaderMap[header] != "isCancelled";
    } else {
      assert !HasUpper(f);
      assert IsUpper("isCancelled"[2]);
    }
  }

  // ---------------------------------------------------------------- cells

  /** What `transform` returns for a cell: the text unchanged, a boolean, the text handed to
      `new Date`, or the text handed to `parseFloat`. */
  datatype Cell = Text(text: string) | Flag(flag: bool) | DateText(dateText: string) | NumberText(numberText: string)

  /** `const [day, month, year] = value.split('.')` and `year + '-' + month + '-' + day`;
      a missing piece reads as "undefined". */
  function ReorderGermanDate(value: string): string
  {
    var pieces := Split(value, '.');
    PieceOrUndefined(pieces, 2) + "-" + PieceOrUndefined(pieces, 1) + "-" + PieceOrUndefined(pieces, 0)
  }

  /** `transform(value, field)`. */
  function Transform(value: string, field: string): (cell: Cell)
    ensures field == "cancelled" ==> cell == Flag(value == "WAHR")
    ensures field !in {"bookingDate", "arrivalDate", "departureDate", "cancellationDate", "cancelled", "totalPrice", "commission"} ==>
      cell == Text(value)
  {
    if field == "bookingDate" then
      var pieces := Split(value, ' ');
      DateText(PieceOrUndefined(pieces, 0) + "T" + PieceOrUndefined(pieces, 1))
    else if field == "arrivalDate" || field == "departureDate" then
      DateText(ReorderGermanDate(value))
    else if field == "cancellationDate" && value != "" then
      DateText(ReorderGermanDate(value))
    else if field == "cancelled" then
      Flag(value == "WAHR")
    else if field == "totalPrice" || field == "commission" then
      NumberText(ReplaceFirst(value, ',', '.'))
    else
      Text(value)
  }

  /** "WAHR" reads as true; "FALSCH", the empty cell and every other text read as false. */
  lemma CancelledFlag(value: string)
    ensures Transform(value, "cancelled").Flag?
    ensures Transform(value, "cancelled").flag <==> value == "WAHR"
    ensures Transform("FALSCH", "cancelled") == Flag(false)
    ensures Transform("", "cancelled") == Flag(false)
  {
  }

  /** A `D.M.Y` arrival or departure cell is handed on as `Y-M-D`. */
  lemma GermanDateReordered(day: string, month: string, year: string, field: string)
    requires '.' !in day && '.' !in month && '.' !in year
    requires field == "arrivalDate" || field == "departureDate" || (field == "cancellationDate")
    ensures Transform(day + "." + month + "." + year, field) == DateText(year + "-" + month + "-" + day)
  {
    SplitConcat(day, '.', month + "." + year);
    assert day + "." + month + "." + year == day + ['.'] + (month + "." + year);
    SplitConcat(month, '.', year);
    assert month + "." + year == month + ['.'] + year;
    SplitWithoutSeparator(day, '.');
    SplitWithoutSeparator(month, '.');
    SplitWithoutSeparator(year, '.');
    assert Split(day + "." + month + "." + year, '.') == [day, month, year];
  }

  /** An empty cancellation date is not converted: it falls through unchanged. */
  lemma EmptyCancellationDate()
    ensures Transform("", "cancellationDate") == Text("")
  {
  }

  /** A booking date `date time` is handed on as `dateTtime`; without a space the time
      reads as "undefined". */
  lemma BookingDateJoined(date: string, time: string)
    requires ' ' !in date && ' ' !in time
    ensures Transform(date + " " + time, "bookingDate") == DateText(date + "T" + time)
    ensures Transform(date, "bookingDate") == DateText(date + "Tundefined")
  {
    SplitConcat(date, ' ', time);
    assert date + " " + time == date + [' '] + time;
    SplitWithoutSeparator(time, ' ');
    SplitWithoutSeparator(date, ' ');
  }

  /** Only the first comma of a price or commission becomes a point; later commas stay. */
  lemma FirstCommaOnly(whole: string, rest: string, field: string)
    requires ',' !in whole
    requires field == "totalPrice" || field == "commission"
    ensures Transform(whole + "," + rest, field) == NumberText(whole + "." + rest)
  {
    var s := whole + "," + rest;
    assert s[|whole|] == ',' && s[..|whole|] == whole && s[|whole| + 1..] == rest;
    ReplaceFirstAt(s, ',', '.', |whole|);
  }

  // ---------------------------------------------------------------- loading

  /** What the parser reports: the rows of a complete parse, or an error. */
  datatype ParseOutcome<T> = Complete(rows: seq<T>) | ParseError(message: string)

  /** The dataset after a drop: a complete parse replaces it through `onDataLoaded`; a parse
      error only raises an alert, and a drop without a file does nothing. */
  function DataAfterDrop<T>(loaded: seq<T>, dropped: Option<ParseOutcome<T>>): (data: seq<T>)
    ensures dropped.None? ==> data == loaded
    ensures dropped.Some? && dropped.value.ParseError? ==> data == loaded
    ensures dropped.Some? && dropped.value.Complete? ==> data == dropped.value.rows
  {
    match dropped
    case None => loaded
    case Some(Complete(rows)) => rows
    case Some(ParseError(_)) => loaded
  }
}
