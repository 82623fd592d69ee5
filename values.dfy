/** Python values as the validator sees them: optional strings, cells of a
    tabulated row, raised exceptions, and the two string conversions the rows
    use (`str()` of an optional string or of an int, and `str.join`). */
module Values {

  datatype Option<+T> = None | Some(value: T)

  /** The exceptions the core can raise: reading `is_valid` on a row that was
      never validated, and the `TypeError`s of Python's dynamic typing. */
  datatype Exc = NotValidated | TypeError

  /** A value, or the exception that computing it raised. */
  datatype Outcome<+T> = Ok(value: T) | Raised(exc: Exc)

  /** One cell of a tabulated input row. */
  datatype Value = Null | Text(s: string) | Items(xs: seq<string>)

  /** A keyword of a raw row: the column names the worksheet reader uses, the
      two bookkeeping attribute names of a row, and any other name. */
  datatype Column =
    | SiretCol | GerepIdCol | CompanyTypesCol | CollectorTypesCol | WasteProcessorTypesCol
    | WasteVehiclesTypesCol | GivenNameCol | ContactEmailCol | ContactPhoneCol | ContactCol
    | WebsiteCol | EmailCol | RoleCol | ErrorsCol | ValidatedCol | OtherCol(name: string)

  /** The keyword as Python spells it. */
  function ColumnName(c: Column): string
  {
    match c
    case SiretCol => "siret"
    case GerepIdCol => "gerepId"
    case CompanyTypesCol => "companyTypes"
    case CollectorTypesCol => "collectorTypes"
    case WasteProcessorTypesCol => "wasteProcessorTypes"
    case WasteVehiclesTypesCol => "wasteVehiclesTypes"
    case GivenNameCol => "givenName"
    case ContactEmailCol => "contactEmail"
    case ContactPhoneCol => "contactPhone"
    case ContactCol => "contact"
    case WebsiteCol => "website"
    case EmailCol => "email"
    case RoleCol => "role"
    case ErrorsCol => "errors"
    case ValidatedCol => "validated"
    case OtherCol(name) => name
  }

  /** The names of the named keywords; an `OtherCol` spells none of them. */
  const NamedColumns: set<string> :=
    {"siret", "gerepId", "companyTypes", "collectorTypes", "wasteProcessorTypes",
     "wasteVehiclesTypes", "givenName", "contactEmail", "contactPhone", "contact",
     "website", "email", "role", "errors", "validated"}

  /** A raw row: the mapping from keyword to cell that the worksheet reader produces. */
  type Raw = map<Column, Value>

  /** Python truthiness of a cell. */
  predicate Truthy(v: Value)
  {
    match v
    case Null => false
    case Text(s) => s != ""
    case Items(xs) => xs != []
  }

  /** Python truthiness of an optional string. */
  predicate TextTruthy(o: Option<string>)
  {
    o.Some? && o.value != ""
  }

  /** Python truthiness of an optional list of strings. */
  predicate ListTruthy(o: Option<seq<string>>)
  {
    o.Some? && o.value != []
  }

  /** `str(x)` (and `f"{x}"`) for an optional string: None prints as "None". */
  function Str(o: Option<string>): (r: string)
    ensures o.Some? ==> r == o.value
    ensures o.None? ==> r == "None" && |r| == 4
  {
    match o
    case None => "None"
    case Some(s) => s
  }

  /** Membership of an optional string in a collection of strings (Python `in`):
      None is never a member. */
  predicate In(o: Option<string>, s: set<string>)
  {
    o.Some? && o.value in s
  }

  /** `sep.join(xs)`. */
  function Join(sep: char, xs: seq<string>): string
  {
    if xs == [] then ""
    else if |xs| == 1 then xs[0]
    else xs[0] + [sep] + Join(sep, xs[1..])
  }

  /** `str.split(sep)`, the inverse of Join on items free of the separator. */
  function Split(sep: char, s: string): (r: seq<string>)
    ensures |r| >= 1
    decreases |s|
  {
    if sep !in s then [s]
    else
      var i := FirstIndex(sep, s);
      [s[..i]] + Split(sep, s[i + 1..])
  }

  /** The position of the first `sep` in `s`. */
  function FirstIndex(sep: char, s: string): (i: nat)
    requires sep in s
    ensures i < |s| && s[i] == sep && sep !in s[..i]
  {
    if s[0] == sep then 0
    else
      assert s == [s[0]] + s[1..];
      var j := FirstIndex(sep, s[1..]);
      assert s[..j + 1] == [s[0]] + s[1..][..j];
      j + 1
  }

  /** Splitting a comma-joined list gives the list back, provided it is non-empty
      and no item contains the separator. */
  lemma {:induction false} SplitJoin(sep: char, xs: seq<string>)
    requires xs != []
    requires forall i :: 0 <= i < |xs| ==> sep !in xs[i]
    ensures Split(sep, Join(sep, xs)) == xs
  {
    if |xs| == 1 {
    } else {
      var s := Join(sep, xs);
      assert s == xs[0] + [sep] + Join(sep, xs[1..]);
      assert s[|xs[0]|] == sep;
      assert s[..|xs[0]|] == xs[0];
      var i := FirstIndex(sep, s);
      assert i == |xs[0]|;
      assert s[i + 1..] == Join(sep, xs[1..]);
      SplitJoin(sep, xs[1..]);
    }
  }

  /** The decimal digits of a natural number. */
  function NatToString(n: nat): (r: string)
    ensures r != []
    ensures forall i :: 0 <= i < |r| ==> '0' <= r[i] <= '9'
    decreases n
  {
    if n < 10 then [Digit(n)] else NatToString(n / 10) + [Digit(n % 10)]
  }

  function Digit(d: nat): (c: char)
    requires d < 10
    ensures '0' <= c <= '9'
  {
    ['0', '1', '2', '3', '4', '5', '6', '7', '8', '9'][d]
  }

  /** `str(n)` for an int. */
  function IntToString(n: int): string
  {
    if n < 0 then "-" + NatToString(-n) else NatToString(n)
  }

  /** The number a string of decimal digits denotes. */
  function DecimalValue(s: string): int
    requires forall i :: 0 <= i < |s| ==> '0' <= s[i] <= '9'
  {
    if s == [] then 0 else 10 * DecimalValue(s[..|s| - 1]) + (s[|s| - 1] as int - '0' as int)
  }

  /** Reading back the decimal rendering of a row number gives the number. */
  lemma {:induction false} NatToStringRoundTrip(n: nat)
    ensures DecimalValue(NatToString(n)) == n
    decreases n
  {
    var r := NatToString(n);
    if n < 10 {
      assert r[..|r| - 1] == [];
    } else {
      NatToStringRoundTrip(n / 10);
      assert r[..|r| - 1] == NatToString(n / 10);
    }
  }
}
