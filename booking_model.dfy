/** The database column types of a booking: the creation method and attendance
    enumerations, stored as text, and the `Monetary` dollars-and-cents amount,
    stored as the text "D.CC". */
module BookingModel {
  import opened Wrappers
  import opened GoInt
  import opened Text

  /** What the database driver hands to a `Scan` method. A `float64` and a
      `time.Time` are carried with the text Go gives them when it stores
      them into a string (`strconv.FormatFloat(f, 'g', -1, 64)` and the
      `time.RFC3339Nano` layout); `Other` is a value of any type that
      `database/sql` cannot store into a string. */
  datatype DbValue =
    | Null
    | Text(s: string)
    | Bytes(b: string)
    | Int(i: Int64)
    | Bool(flag: bool)
    | Float(g: string)
    | Time(rfc3339: string)
    | Other

  datatype ScanError = Unscannable | InvalidFormat | InvalidDollars | InvalidCents

  // ---------------------------------------------------------------------------
  // Enumerations

  const CREATION_METHODS: set<string> := {"online", "phone", "walk-in"}
  const ATTENDANCES: set<string> := {"attended", "late", "cancelled", "no-show"}

  /** What an enumeration's `Scan` accepts: a byte string, taken as it is. */
  function ScanBytes(v: DbValue): (r: Result<string, ScanError>)
    ensures r.Ok? <==> v.Bytes?
    ensures r.Ok? ==> r.value == v.b
  {
    if v.Bytes? then Ok(v.b) else Err(Unscannable)
  }

  /** A text-backed enumeration column (`Attendance`, `CreationMethod`). */
  class TextEnum {
    var value: string

    constructor (value: string)
      ensures this.value == value
    {
      this.value := value;
    }

    /** The value written to the database: the text itself. */
    function Value(): string
      reads this
    {
      value
    }

    /** Accepts any byte string, listed constant or not, and refuses every
        other kind of value, leaving the field as it was. */
    method Scan(v: DbValue) returns (err: Option<ScanError>)
      modifies this
      ensures err == None <==> v.Bytes?
      ensures value == if v.Bytes? then v.b else old(value)
    {
      match ScanBytes(v)
      case Err(e) =>
        return Some(e);
      case Ok(s) =>
        value := s;
        return None;
    }
  }

  /** Scanning the stored value back gives the value, whatever it is. */
  lemma EnumRoundTrip(value: string)
    ensures ScanBytes(Bytes(value)) == Ok(value)
  {
  }

  /** Values outside the listed constants are accepted as they are. */
  lemma EnumScanUnchecked()
    ensures "maybe" !in ATTENDANCES && ScanBytes(Bytes("maybe")) == Ok("maybe")
    ensures "fax" !in CREATION_METHODS && ScanBytes(Bytes("fax")) == Ok("fax")
  {
  }

  // ---------------------------------------------------------------------------
  // Monetary

  /** `fmt.Sprintf("%d.%02d", dollars, cents)`. */
  function MonetaryText(dollars: Int64, cents: Int64): string {
    IntToDecimal(dollars) + "." + FormatInt(cents, 2)
  }

  /** `sql.NullString.Scan`: NULL reads as the empty string; text, bytes,
      integers, booleans, floats and times are converted to text; a value
      of another type is refused. */
  function NullStringScan(v: DbValue): (r: Result<string, ScanError>)
    ensures r == Err(Unscannable) <==> v == Other
  {
    match v
    case Null => Ok("")
    case Text(s) => Ok(s)
    case Bytes(b) => Ok(b)
    case Int(i) => Ok(IntToDecimal(i))
    case Bool(flag) => Ok(if flag then "true" else "false")
    case Float(g) => Ok(g)
    case Time(t) => Ok(t)
    case Other => Err(Unscannable)
  }

  /** A float is read as its shortest decimal text, so 12.5 gives twelve
      dollars and five cents, just as the text "12.5" would. */
  lemma ScanFloatAsText(dollars: Int64, cents: Int64, d0: Int64, c0: Int64)
    requires cents >= 0
    ensures ScanMonetary(Float(IntToDecimal(dollars) + "." + IntToDecimal(cents)), d0, c0)
         == Scanned(None, dollars, cents)
  {
    var t := IntToDecimal(dollars) + "." + IntToDecimal(cents);
    assert ScanMonetary(Text(t), d0, c0) == Scanned(None, dollars, cents) by {
      ScanPlainAmount(dollars, cents, d0, c0);
    }
    assert ScanMonetary(Float(t), d0, c0) == ScanMonetary(Text(t), d0, c0) by {
      ScanAsText(Float(t), t, d0, c0);
    }
  }

  /** "D.C" with unpadded cents scans as D dollars and C cents. */
  lemma ScanPlainAmount(dollars: Int64, cents: Int64, d0: Int64, c0: Int64)
    requires cents >= 0
    ensures ScanMonetary(Text(IntToDecimal(dollars) + "." + IntToDecimal(cents)), d0, c0)
         == Scanned(None, dollars, cents)
  {
    assert Zeros(0) + IntToDecimal(cents) == IntToDecimal(cents);
    ScanCentsAsInteger(dollars, cents, 0, d0, c0);
  }

  /** An error leaves the cents as they were, and every error but a bad
      cents part leaves the dollars too; a value of an unsupported type is
      refused before anything is written. */
  lemma ScanErrorKeeps(v: DbValue, dollars: Int64, cents: Int64)
    ensures var r := ScanMonetary(v, dollars, cents);
            && (r.err.Some? ==> r.cents == cents)
            && (r.err.Some? && r.err != Some(InvalidCents) ==> r.dollars == dollars)
            && (v.Other? ==> r == Scanned(Some(Unscannable), dollars, cents))
  {
    match NullStringScan(v)
    case Err(_) =>
    case Ok(raw) =>
      var str := GoTrimSpace(raw);
      if str != "" {
        ParseAmountKeeps(Split(str, '.'), dollars, cents);
      }
  }

  /** The parts' parse writes the cents only when it succeeds, and the
      dollars only when the dollars part parses. */
  lemma ParseAmountKeeps(parts: seq<string>, dollars: Int64, cents: Int64)
    requires |parts| >= 1
    ensures var r := ParseAmount(parts, dollars, cents);
            && (r.err.Some? ==> r.cents == cents)
            && (r.err.Some? && r.err != Some(InvalidCents) ==> r.dollars == dollars)
  {
  }

  /** Every value that converts to a text scans as that text would. */
  lemma ScanAsText(v: DbValue, t: string, d0: Int64, c0: Int64)
    requires NullStringScan(v) == Ok(t)
    ensures ScanMonetary(v, d0, c0) == ScanMonetary(Text(t), d0, c0)
  {
  }

  /** The outcome of `Monetary.Scan`: the error, if any, and the two fields
      afterwards. */
  datatype Scanned = Scanned(err: Option<ScanError>, dollars: Int64, cents: Int64)

  /** What `Monetary.Scan` does to fields `dollars` and `cents`. Dollars are
      written before the cents are parsed, and cents only when there is a
      '.'; every early error leaves what was not yet written. */
  function ScanMonetary(v: DbValue, dollars: Int64, cents: Int64): Scanned {
    match NullStringScan(v)
    case Err(e) => Scanned(Some(e), dollars, cents)
    case Ok(raw) =>
      var str := GoTrimSpace(raw);
      if str == "" then Scanned(None, dollars, cents) else ParseAmount(Split(str, '.'), dollars, cents)
  }

  /** The dollars and cents parts of a trimmed, non-empty amount. */
  function ParseAmount(parts: seq<string>, dollars: Int64, cents: Int64): Scanned
    requires |parts| >= 1
  {
    if |parts| > 2 then Scanned(Some(InvalidFormat), dollars, cents)
    else
      match ParseInt64(parts[0])
      case None => Scanned(Some(InvalidDollars), dollars, cents)
      case Some(d) =>
        if |parts| == 2 then
          match ParseInt64(parts[1])
          case None => Scanned(Some(InvalidCents), d, cents)
          case Some(c) => Scanned(None, d, c)
        else Scanned(None, d, cents)
  }

  /** A dollars-and-cents amount, a NUMERIC column with two cents digits. */
  class Monetary {
    var dollars: Int64
    var cents: Int64

    constructor (dollars: Int64, cents: Int64)
      ensures this.dollars == dollars && this.cents == cents
    {
      this.dollars, this.cents := dollars, cents;
    }

    /** The text written to the database. */
    function Value(): string
      reads this
    {
      MonetaryText(dollars, cents)
    }

    /** Reads the database text into the fields, step by step. */
    method Scan(v: DbValue) returns (err: Option<ScanError>)
      modifies this
      ensures Scanned(err, dollars, cents) == ScanMonetary(v, old(dollars), old(cents))
    {
      var s := NullStringScan(v);
      if s.Err? {
        return Some(s.error);
      }
      var str := GoTrimSpace(s.value);
      if str == "" {
        return None;
      }
      var parts := Split(str, '.');
      if |parts| > 2 {
        return Some(InvalidFormat);
      }
      var d := ParseInt64(parts[0]);
      if d.None? {
        return Some(InvalidDollars);
      }
      dollars := d.value;
      if |parts| == 2 {
        var c := ParseInt64(parts[1]);
        if c.None? {
          return Some(InvalidCents);
        }
        cents := c.value;
      }
      return None;
    }
  }

  /** A rendered integer has no '.' and no space at either end. */
  lemma FormattedIntShape(n: Int64, width: nat)
    ensures '.' !in FormatInt(n, width)
    ensures FormatInt(n, width) != [] && IsDigit(FormatInt(n, width)[|FormatInt(n, width)| - 1])
    ensures !IsGoSpace(FormatInt(n, width)[0])
  {
    var k: nat := if n < 0 then -(n as int) else n as int;
    var w := if n < 0 && width > 0 then width - 1 else width;
    var body := PadZeros(NatToDecimal(k), w);
    PadZerosValue(NatToDecimal(k), w);
    assert body != [];
    if n < 0 {
      assert FormatInt(n, width) == "-" + body;
    }
    assert forall i | 0 <= i < |FormatInt(n, width)| :: FormatInt(n, width)[i] != '.';
  }

  /** A string whose ends are not whitespace is its own `TrimSpace`. */
  lemma TrimNoSpaceEnds(s: string)
    requires s != [] && !IsGoSpace(s[0]) && !IsGoSpace(s[|s| - 1])
    ensures GoTrimSpace(s) == s
  {
  }

  /** Scanning a stored amount restores it, negative cents included, and
      whatever the fields held before. */
  lemma ScanValueRoundTrip(dollars: Int64, cents: Int64, d0: Int64, c0: Int64)
    ensures ScanMonetary(Text(MonetaryText(dollars, cents)), d0, c0) == Scanned(None, dollars, cents)
  {
    var a, b := IntToDecimal(dollars), FormatInt(cents, 2);
    var s := MonetaryText(dollars, cents);
    assert s == a + ['.'] + b;
    FormattedIntShape(dollars, 0);
    FormattedIntShape(cents, 2);
    assert s[0] == a[0] && s[|s| - 1] == b[|b| - 1];
    TrimNoSpaceEnds(s);
    SplitAfter(a, '.', b);
    SplitNone(b, '.');
    assert Split(s, '.') == [a, b];
    ParseFormatted(dollars, 0);
    ParseFormatted(cents, 2);
    assert ParseAmount([a, b], d0, c0) == Scanned(None, dollars, cents);
  }

  /** NULL, the empty string and whitespace scan without error and change
      nothing. */
  lemma ScanBlankKeeps(s: string, d0: Int64, c0: Int64)
    requires IsBlank(s, IsGoSpace)
    ensures ScanMonetary(Text(s), d0, c0) == Scanned(None, d0, c0)
    ensures ScanMonetary(Null, d0, c0) == Scanned(None, d0, c0)
  {
    TrimEmptyIffBlank(s, IsGoSpace);
    assert GoTrimSpace(s) == "";
    assert GoTrimSpace("") == "";
  }

  /** More than one '.' is a format error, and nothing is written. */
  lemma ScanManyDots(s: string, d0: Int64, c0: Int64)
    requires multiset(GoTrimSpace(s))['.'] >= 2
    ensures ScanMonetary(Text(s), d0, c0) == Scanned(Some(InvalidFormat), d0, c0)
  {
    assert GoTrimSpace(s) != "";
    SplitCount(GoTrimSpace(s), '.');
  }

  /** An amount without '.' writes the dollars and keeps the cents. */
  lemma ScanDollarsOnly(n: Int64, d0: Int64, c0: Int64)
    ensures ScanMonetary(Text(IntToDecimal(n)), d0, c0) == Scanned(None, n, c0)
  {
    var s := IntToDecimal(n);
    FormattedIntShape(n, 0);
    TrimNoSpaceEnds(s);
    SplitNone(s, '.');
    ParseFormatted(n, 0);
  }

  /** The dollars are required: a text starting with '.', such as ".50", is
      refused before anything is written. */
  lemma ScanNeedsDollars(b: string, d0: Int64, c0: Int64)
    requires '.' !in b && b != [] && !IsGoSpace(b[|b| - 1])
    ensures ScanMonetary(Text("." + b), d0, c0) == Scanned(Some(InvalidDollars), d0, c0)
  {
    ScanParts("", b, d0, c0);
    assert "" + "." + b == "." + b;
  }

  /** The cents are read as a plain integer: leading zeros vanish, so "1.5"
      and "1.05" both give five cents. */
  lemma ScanCentsAsInteger(dollars: Int64, cents: Int64, zeros: nat, d0: Int64, c0: Int64)
    requires cents >= 0
    ensures ScanMonetary(Text(IntToDecimal(dollars) + "." + (Zeros(zeros) + IntToDecimal(cents))), d0, c0)
         == Scanned(None, dollars, cents)
  {
    var a := IntToDecimal(dollars);
    var b := Zeros(zeros) + IntToDecimal(cents);
    FormattedIntShape(dollars, 0);
    ZeroPaddedCents(cents, zeros);
    assert (a + "." + b)[0] == a[0];
    ScanParts(a, b, d0, c0);
    ParseFormatted(dollars, 0);
    assert ParseAmount([a, b], d0, c0) == Scanned(None, dollars, cents);
  }

  /** Zeros before a number's digits parse away. */
  lemma ZeroPaddedCents(cents: Int64, zeros: nat)
    requires cents >= 0
    ensures var b := Zeros(zeros) + IntToDecimal(cents);
            '.' !in b && b != [] && !IsGoSpace(b[|b| - 1]) && ParseInt64(b) == Some(cents)
  {
    var c := NatToDecimal(cents as nat);
    assert IntToDecimal(cents) == c;
    var b := Zeros(zeros) + c;
    assert b != [] && AllDigits(b) && DecimalValue(b) == cents by {
      LeadingZeros(zeros, c);
      DecimalRoundTrip(cents as nat);
    }
    DigitsShape(b);
    ParseDigits(b);
  }

  /** Digits hold no '.' and end in no whitespace. */
  lemma DigitsShape(b: string)
    requires b != [] && AllDigits(b)
    ensures '.' !in b && !IsGoSpace(b[|b| - 1])
  {
    assert IsDigit(b[|b| - 1]);
    forall k | 0 <= k < |b| ensures b[k] != '.' {
      assert IsDigit(b[k]);
    }
  }

  /** A bad cents part is found after the dollars were written. */
  lemma ScanPartialWrite(dollars: Int64, b: string, d0: Int64, c0: Int64)
    requires '.' !in b && b != [] && !IsGoSpace(b[|b| - 1]) && ParseInt64(b) == None
    ensures ScanMonetary(Text(IntToDecimal(dollars) + "." + b), d0, c0) == Scanned(Some(InvalidCents), dollars, c0)
  {
    var a := IntToDecimal(dollars);
    FormattedIntShape(dollars, 0);
    assert (a + "." + b)[0] == a[0];
    ScanParts(a, b, d0, c0);
    ParseFormatted(dollars, 0);
  }

  /** A "dollars.cents" text with no spaces at its ends scans as its two parts. */
  lemma ScanParts(a: string, b: string, d0: Int64, c0: Int64)
    requires '.' !in a && '.' !in b && b != []
    requires !IsGoSpace((a + "." + b)[0]) && !IsGoSpace(b[|b| - 1])
    ensures ScanMonetary(Text(a + "." + b), d0, c0) == ParseAmount([a, b], d0, c0)
  {
    var s := a + "." + b;
    assert s == a + ['.'] + b;
    assert s[|s| - 1] == b[|b| - 1];
    TrimNoSpaceEnds(s);
    SplitAfter(a, '.', b);
    SplitNone(b, '.');
  }
}
