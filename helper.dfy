/** Text helpers of internal/pkg/utils/helper.go: the comma-separated id list
    used to build SQL text, and the validators of the `year` and `month`
    query parameters.  Go's `int` is 64 bits wide here, so ids and parsed
    values are `Int64`; `fmt.Sprintf("%d")`, `strings.Join`, `strings.Split`
    and `strconv.Atoi` are written out below. */
module Helper {
  import opened AppErrors

  const MinInt64: int := -0x8000_0000_0000_0000
  const MaxInt64: int := 0x7fff_ffff_ffff_ffff
  const MaxUint64: int := 0xffff_ffff_ffff_ffff

  type Int64 = x: int | MinInt64 <= x <= MaxInt64

  predicate IsDigit(c: char) { '0' <= c <= '9' }

  function DigitChar(d: nat): (c: char)
    requires d < 10
    ensures IsDigit(c) && (c as int) - ('0' as int) == d
  {
    (('0' as int) + d) as char
  }

  /** The decimal digits of a natural number, without leading zeros. */
  function NatToDecimal(n: nat): (s: string)
    ensures |s| >= 1
    ensures forall i :: 0 <= i < |s| ==> IsDigit(s[i])
    ensures s[0] == '0' ==> n == 0
    decreases n
  {
    if n < 10 then [DigitChar(n)] else NatToDecimal(n / 10) + [DigitChar(n % 10)]
  }

  /** fmt.Sprintf("%d", n). */
  function FormatInt(n: int): (s: string)
    ensures ',' !in s
  {
    if n < 0 then "-" + NatToDecimal(-n) else NatToDecimal(n)
  }

  /** strings.Join(xs, ","). */
  function JoinComma(xs: seq<string>): string
  {
    if |xs| == 0 then "" else if |xs| == 1 then xs[0] else xs[0] + "," + JoinComma(xs[1..])
  }

  /** strings.Split(s, ","): the pieces between the commas, in order. */
  function SplitComma(s: string): (pieces: seq<string>)
    ensures |pieces| >= 1
    decreases |s|
  {
    if s == [] then [""]
    else
      var rest := SplitComma(s[1..]);
      if s[0] == ',' then [""] + rest else [[s[0]] + rest[0]] + rest[1..]
  }

  /** The outcome of reading a string of digits left to right the way
      strconv.ParseUint does: the first non-digit is a syntax error, and a
      prefix whose value passes 2^64 - 1 is a range error, whichever comes
      first. */
  datatype Scan = Value(n: nat) | Syntax | Range

  function ScanDigits(s: string): Scan
    decreases |s|
  {
    if s == [] then Value(0)
    else
      match ScanDigits(s[..|s| - 1])
      case Value(v) =>
        var c := s[|s| - 1];
        if !IsDigit(c) then Syntax
        else if v * 10 + ((c as int) - ('0' as int)) > MaxUint64 then Range
        else Value(v * 10 + ((c as int) - ('0' as int)))
      case other => other
  }

  /** strconv.Atoi on a 64-bit platform. */
  function Atoi(s: string): (r: Result<Int64>)
    ensures r.Err? ==> r.error in {NumSyntax(s), NumRange(s)}
  {
    if s == [] then Err(NumSyntax(s))
    else
      var body := if s[0] == '-' || s[0] == '+' then s[1..] else s;
      if body == [] then Err(NumSyntax(s)) else Signed(s, s[0] == '-', ScanDigits(body))
  }

  /** The value of the digits read, with the sign applied and the 64-bit
      range checked. */
  function Signed(s: string, negative: bool, scan: Scan): (r: Result<Int64>)
    ensures r.Err? ==> r.error in {NumSyntax(s), NumRange(s)}
  {
    match scan
    case Syntax => Err(NumSyntax(s))
    case Range => Err(NumRange(s))
    case Value(u) =>
      if negative && u > MaxInt64 + 1 then Err(NumRange(s))
      else if !negative && u > MaxInt64 then Err(NumRange(s))
      else
        var v: int := if negative then 0 - u else u;
        Ok(v)
  }

  lemma {:induction false} ScanDecimal(n: nat)
    requires n <= MaxUint64
    ensures ScanDigits(NatToDecimal(n)) == Value(n)
    decreases n
  {
    if n >= 10 {
      var s := NatToDecimal(n);
      ScanDecimal(n / 10);
      assert s[..|s| - 1] == NatToDecimal(n / 10);
    }
  }

  /** Atoi reads back what %d wrote, for every 64-bit integer. */
  lemma AtoiFormatInt(n: Int64)
    ensures Atoi(FormatInt(n)) == Ok(n)
  {
    var s := FormatInt(n);
    if n < 0 {
      var m: nat := 0 - n;
      ScanDecimal(m);
      assert s[0] == '-' && s[1..] == NatToDecimal(m);
      assert Signed(s, true, Value(m)) == Ok(n);
    } else {
      ScanDecimal(n);
      assert s == NatToDecimal(n) && IsDigit(s[0]);
      assert Signed(s, false, Value(n)) == Ok(n);
    }
  }

  lemma {:induction false} SplitWithoutComma(s: string)
    requires ',' !in s
    ensures SplitComma(s) == [s]
    decreases |s|
  {
    if s != [] {
      SplitWithoutComma(s[1..]);
      assert [s[0]] + s[1..] == s;
    }
  }

  lemma {:induction false} SplitAfterPiece(x: string, rest: string)
    requires ',' !in x
    ensures SplitComma(x + "," + rest) == [x] + SplitComma(rest)
    decreases |x|
  {
    if x == [] {
      assert x + "," + rest == [','] + rest;
      assert (x + "," + rest)[1..] == rest;
    } else {
      SplitAfterPiece(x[1..], rest);
      assert (x + "," + rest)[1..] == x[1..] + "," + rest;
      assert [x[0]] + x[1..] == x;
    }
  }

  /** Splitting a join gives back the pieces, when no piece holds a comma. */
  lemma {:induction false} SplitJoin(xs: seq<string>)
    requires |xs| >= 1
    requires forall i :: 0 <= i < |xs| ==> ',' !in xs[i]
    ensures SplitComma(JoinComma(xs)) == xs
    decreases |xs|
  {
    if |xs| == 1 {
      SplitWithoutComma(xs[0]);
    } else {
      SplitJoin(xs[1..]);
      SplitAfterPiece(xs[0], JoinComma(xs[1..]));
      assert [xs[0]] + xs[1..] == xs;
    }
  }

  /** Each piece of the list parsed with strconv.Atoi, stopping at the first
      piece that is not an integer. */
  function ParseIds(pieces: seq<string>): Result<seq<Int64>>
  {
    if |pieces| == 0 then Ok([])
    else
      match Atoi(pieces[0])
      case Err(e) => Err(e)
      case Ok(v) =>
        match ParseIds(pieces[1..])
        case Err(e) => Err(e)
        case Ok(vs) => Ok([v] + vs)
  }

  function FormatAll(ids: seq<Int64>): (strs: seq<string>)
    ensures |strs| == |ids|
    ensures forall i :: 0 <= i < |ids| ==> strs[i] == FormatInt(ids[i])
  {
    if |ids| == 0 then [] else [FormatInt(ids[0])] + FormatAll(ids[1..])
  }

  lemma {:induction false} ParseFormatAll(ids: seq<Int64>)
    ensures ParseIds(FormatAll(ids)) == Ok(ids)
    decreases |ids|
  {
    if |ids| > 0 {
      var strs := FormatAll(ids);
      AtoiFormatInt(ids[0]);
      assert Atoi(strs[0]) == Ok(ids[0]);
      ParseFormatAll(ids[1..]);
      assert strs[1..] == FormatAll(ids[1..]);
      assert ParseIds(strs[1..]) == Ok(ids[1..]);
      assert [ids[0]] + ids[1..] == ids;
    }
  }

  /** FormatIntSliceForQuery: the decimal form of each id, in order, joined
      by single commas; splitting the text on commas and parsing every piece
      gives the ids back. */
  method FormatIntSliceForQuery(ids: seq<Int64>) returns (s: string)
    ensures s == JoinComma(FormatAll(ids))
    ensures ids == [] <==> s == ""
    ensures ids != [] ==> ParseIds(SplitComma(s)) == Ok(ids)
  {
    var strIDs := new string[|ids|];
    for i := 0 to |ids|
      invariant forall k :: 0 <= k < i ==> strIDs[k] == FormatInt(ids[k])
    {
      strIDs[i] := FormatInt(ids[i]);
    }
    assert strIDs[..] == FormatAll(ids);
    s := JoinComma(strIDs[..]);
    if ids != [] {
      SplitJoin(FormatAll(ids));
      ParseFormatAll(ids);
      assert |FormatInt(ids[0])| >= 1;
      JoinNonEmpty(FormatAll(ids));
    }
  }

  lemma {:induction false} JoinNonEmpty(xs: seq<string>)
    requires |xs| >= 1 && |xs[0]| >= 1
    ensures |JoinComma(xs)| >= 1
  {
  }

  const FirstValidYear := 2025

  /** ValidateYearQueryParam, with the current year passed in: a year from
      2025 up to the current year is returned as parsed, anything else is
      an error. */
  function ValidateYearQueryParam(yearVal: string, currentYear: int): (r: Result<Int64>)
    ensures Atoi(yearVal).Err? ==> r == Atoi(yearVal)
    ensures Atoi(yearVal).Ok? ==>
      (r.Ok? <==> FirstValidYear <= Atoi(yearVal).value <= currentYear)
    ensures Atoi(yearVal).Ok? && r.Err? ==> r.error == ErrInvalidQueryParams
    ensures r.Ok? ==> r == Atoi(yearVal)
  {
    match Atoi(yearVal)
    case Err(e) => Err(e)
    case Ok(year) =>
      if year < FirstValidYear || year > currentYear then Err(ErrInvalidQueryParams) else Ok(year)
  }

  /** ValidateMonthQueryParam: 0 to 12 inclusive is accepted (0 included). */
  function ValidateMonthQueryParam(monthVal: string): (r: Result<Int64>)
    ensures Atoi(monthVal).Err? ==> r == Atoi(monthVal)
    ensures Atoi(monthVal).Ok? ==> (r.Ok? <==> 0 <= Atoi(monthVal).value <= 12)
    ensures Atoi(monthVal).Ok? && r.Err? ==> r.error == ErrInvalidQueryParams
    ensures r.Ok? ==> r == Atoi(monthVal)
  {
    match Atoi(monthVal)
    case Err(e) => Err(e)
    case Ok(month) =>
      if month < 0 || month > 12 then Err(ErrInvalidQueryParams) else Ok(month)
  }

  /** The validators accept exactly the decimal text of an in-range value. */
  lemma ValidatorsAcceptFormatted(year: Int64, month: Int64, currentYear: int)
    ensures ValidateYearQueryParam(FormatInt(year), currentYear).Ok?
            <==> FirstValidYear <= year <= currentYear
    ensures FirstValidYear <= year <= currentYear ==>
            ValidateYearQueryParam(FormatInt(year), currentYear) == Ok(year)
    ensures ValidateMonthQueryParam(FormatInt(month)) == if 0 <= month <= 12 then Ok(month) else Err(ErrInvalidQueryParams)
  {
    AtoiFormatInt(year);
    AtoiFormatInt(month);
  }
}
