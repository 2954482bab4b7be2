/** The error rows that the import handlers write, and why a report of them can
    always be read back. */
module ErrorReports {
  import opened Text
  import opened Csv
  import CustomerImport

  /** The codes and messages of the handlers: constants. */
  const CUSTOMER_ERRORS: seq<(string, string)> := [
    ("NAME_REQUIRED", "Nome obrigatorio."),
    ("INVALID_DOCUMENT", "CPF/CNPJ invalido."),
    ("INVALID_EMAIL", "E-mail invalido."),
    ("INVALID_POSTAL_CODE", "CEP deve possuir 8 digitos."),
    ("INVALID_STATE", "Estado deve possuir UF com 2 letras."),
    ("DUPLICATE_IN_FILE", "Documento duplicado dentro do arquivo."),
    ("DUPLICATE_IN_TENANT", "Cliente ja existe neste tenant.")]

  const CARRIER_ERRORS: seq<(string, string)> := [
    ("NAME_REQUIRED", "Nome obrigatorio."),
    ("CODE_REQUIRED", "Codigo obrigatorio."),
    ("INVALID_CNPJ", "CNPJ deve possuir 14 digitos."),
    ("INVALID_EMAIL", "E-mail invalido."),
    ("INVALID_SITE", "Site deve iniciar com http:// ou https://."),
    ("DUPLICATE_IN_FILE", "Transportadora duplicada dentro do arquivo."),
    ("DUPLICATE_IN_TENANT", "Transportadora ja existe neste tenant.")]

  /** A document in digits or a carrier code. */
  predicate ReferenceChar(c: char) {
    'A' <= c <= 'Z' || '0' <= c <= '9' || c == '_' || c == '-'
  }

  predicate HandlerRow(r: ErrorRow) {
    && r.reference.Some? && (forall i :: 0 <= i < |r.reference.value| ==> ReferenceChar(r.reference.value[i]))
    && r.code.Some? && r.message.Some? && (r.code.value, r.message.value) in CUSTOMER_ERRORS + CARRIER_ERRORS
  }

  predicate NoReturn(s: string) {
    '\r' !in s
  }

  lemma CustomerErrorsPlain(k: nat)
    requires k < |CUSTOMER_ERRORS|
    ensures NoReturn(CUSTOMER_ERRORS[k].0) && NoReturn(CUSTOMER_ERRORS[k].1)
  {
  }

  lemma CarrierErrorsPlain(k: nat)
    requires k < |CARRIER_ERRORS|
    ensures NoReturn(CARRIER_ERRORS[k].0) && NoReturn(CARRIER_ERRORS[k].1)
  {
  }

  lemma HandlerRowProtected(r: ErrorRow)
    requires HandlerRow(r)
    ensures ProtectedRow(r.Cells())
  {
    hide CUSTOMER_ERRORS, CARRIER_ERRORS;
    var entry := (r.code.value, r.message.value);
    if entry in CUSTOMER_ERRORS {
      var k :| 0 <= k < |CUSTOMER_ERRORS| && CUSTOMER_ERRORS[k] == entry;
      CustomerErrorsPlain(k);
    } else {
      var k :| 0 <= k < |CARRIER_ERRORS| && CARRIER_ERRORS[k] == entry;
      CarrierErrorsPlain(k);
    }
    assert AllDigits(Decimal(r.rowNumber));
    forall i | 0 <= i < 4 ensures NoReturn(r.Cells()[i]) {
    }
  }

  /** Every report of rows as the handlers write them reads back as its header and
      cells: the unprotected cell needs a message no handler writes today. */
  lemma HandlerReportReadable(rows: seq<ErrorRow>)
    requires forall i :: 0 <= i < |rows| ==> HandlerRow(rows[i])
    ensures Parsed(ErrorReport(rows)) == Table(rows)
  {
    hide HandlerRow, ProtectedRow;
    forall i | 0 <= i < |rows| ensures ProtectedRow(rows[i].Cells()) {
      HandlerRowProtected(rows[i]);
    }
    ReportRoundTrip(rows);
  }

  // ---------- The customer handler ----------

  /** The code and message of a customer error, as an entry of the constants. */
  function EntryOf(code: CustomerImport.ErrorCode): nat {
    match code
    case NAME_REQUIRED => 0
    case INVALID_DOCUMENT => 1
    case INVALID_EMAIL => 2
    case INVALID_POSTAL_CODE => 3
    case INVALID_STATE => 4
    case DUPLICATE_IN_FILE => 5
    case DUPLICATE_IN_TENANT => 6
  }

  /** The stored error of a customer row. */
  function CustomerError(rowNumber: nat, d: CustomerImport.CustomerData, code: CustomerImport.ErrorCode): ErrorRow {
    var entry := CUSTOMER_ERRORS[EntryOf(code)];
    ErrorRow(rowNumber, Some(d.document), Some(entry.0), Some(entry.1))
  }

  lemma DigitsAreReference(s: string)
    requires AllDigits(s)
    ensures forall i :: 0 <= i < |s| ==> ReferenceChar(s[i])
  {
    forall i | 0 <= i < |s| ensures ReferenceChar(s[i]) {
      assert IsDigit(s[i]);
    }
  }

  /** Whatever the uploaded row and the mapping, a customer error is such a row. */
  lemma CustomerErrorIsHandlerRow(row: map<string, string>, mapping: map<string, string>, rowNumber: nat, code: CustomerImport.ErrorCode)
    ensures HandlerRow(CustomerError(rowNumber, CustomerImport.Normalize(row, mapping), code))
  {
    hide CustomerImport.Normalize;
    var d := CustomerImport.Normalize(row, mapping);
    DigitsAreReference(d.document);
    assert CUSTOMER_ERRORS[EntryOf(code)] in CUSTOMER_ERRORS;
  }

  /** The report of a customer import always reads back. */
  lemma CustomerReportReadable(
      uploaded: seq<map<string, string>>, mapping: map<string, string>, numbers: seq<nat>, codes: seq<CustomerImport.ErrorCode>)
    requires |uploaded| == |numbers| == |codes|
    ensures var rows := seq(|uploaded|, i requires 0 <= i < |uploaded| =>
        CustomerError(numbers[i], CustomerImport.Normalize(uploaded[i], mapping), codes[i]));
      Parsed(ErrorReport(rows)) == Table(rows)
  {
    hide CustomerImport.Normalize, CustomerError, HandlerRow;
    var rows := seq(|uploaded|, i requires 0 <= i < |uploaded| =>
      CustomerError(numbers[i], CustomerImport.Normalize(uploaded[i], mapping), codes[i]));
    forall i | 0 <= i < |rows| ensures HandlerRow(rows[i]) {
      CustomerErrorIsHandlerRow(uploaded[i], mapping, numbers[i], codes[i]);
    }
    HandlerReportReadable(rows);
  }

  /** The stored error of a customer row names the row, its document and the code
      that validation or the duplicate checks gave. */
  lemma CustomerErrorMeans(rowNumber: nat, d: CustomerImport.CustomerData, code: CustomerImport.ErrorCode)
    ensures var e := CustomerError(rowNumber, d, code);
      && e.rowNumber == rowNumber && e.reference == Some(d.document)
      && e.code == Some(match code
                        case NAME_REQUIRED => "NAME_REQUIRED"
                        case INVALID_DOCUMENT => "INVALID_DOCUMENT"
                        case INVALID_EMAIL => "INVALID_EMAIL"
                        case INVALID_POSTAL_CODE => "INVALID_POSTAL_CODE"
                        case INVALID_STATE => "INVALID_STATE"
                        case DUPLICATE_IN_FILE => "DUPLICATE_IN_FILE"
                        case DUPLICATE_IN_TENANT => "DUPLICATE_IN_TENANT")
      && e.message.Some? && (e.code.value, e.message.value) == CUSTOMER_ERRORS[EntryOf(code)]
  {
  }
}
