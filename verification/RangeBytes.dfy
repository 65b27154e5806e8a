/** The byte-range parser in front of the object store (section 2.1 of RFC 7233), and the printer of
    the range that is sent on. File sizes are below 2^53, so the numbers a range is compared with are
    exact. */
module RangeBytes {
  import opened Common
  import opened Text

  datatype Range = Range(start: nat, end: nat)

  // Characters ------------------------------------------------------------------------------------

  predicate IsDigit(c: char) {
    '0' <= c <= '9'
  }

  /** Lower case as far as the prefix test can see it: the ASCII letters. */
  function Lower(c: char): char {
    if 'A' <= c <= 'Z' then c + ' ' else c
  }

  const PREFIX := "bytes="

  predicate HasPrefix(r: string) {
    |r| >= 6 && forall i :: 0 <= i < 6 ==> Lower(r[i]) == PREFIX[i]
  }

  /** `split(',')[0]` */
  function UpToComma(s: string): string {
    if s == "" || s[0] == ',' then "" else [s[0]] + UpToComma(s[1..])
  }

  predicate Digits(s: string) {
    forall i :: 0 <= i < |s| ==> IsDigit(s[i])
  }

  /** The decimal value of a digit string. */
  function Value(s: string): nat
    requires Digits(s)
  {
    if s == "" then 0 else 10 * Value(s[..|s| - 1]) + (s[|s| - 1] as int - '0' as int)
  }

  /** The position of the first dash, or the length if there is none. */
  function Dash(s: string): (i: nat)
    ensures i <= |s| && (i < |s| ==> s[i] == '-') && forall j :: 0 <= j < i ==> s[j] != '-'
  {
    if s == "" || s[0] == '-' then 0 else 1 + Dash(s[1..])
  }

  function Pow2(n: nat): nat {
    if n == 0 then 1 else 2 * Pow2(n - 1)
  }

  /** From here on `parseInt` rounds to infinity. */
  predicate IsFinite(n: nat) {
    n < Pow2(1024) - Pow2(970)
  }

  // The parser ------------------------------------------------------------------------------------

  function ParseSpec(first: string, fileSize: nat): Option<Range>
    requires fileSize > 0
  {
    var d := Dash(first);
    if d == |first| || !Digits(first[..d]) || !Digits(first[d + 1..]) then None
    else
      var left, right := first[..d], first[d + 1..];
      if left == "" then
        if right == "" || !IsFinite(Value(right)) || Value(right) == 0 then None
        else Some(Range(if Value(right) >= fileSize then 0 else fileSize - Value(right), fileSize - 1))
      else
        var start := Value(left);
        var end := if right == "" then fileSize - 1 else Value(right);
        if start >= fileSize || start > end then None
        else Some(Range(start, if end >= fileSize then fileSize - 1 else end))
  }

  function ParseSingleByteRange(range: Option<string>, fileSize: int): Option<Range> {
    if range.None? || range.value == "" || fileSize <= 0 then None
    else
      var r := Trim(range.value);
      if !HasPrefix(r) then None
      else ParseSpec(Trim(UpToComma(r[6..])), fileSize)
  }

  // What the specification says -------------------------------------------------------------------

  /** byte-range-spec and suffix-byte-range-spec of RFC 7233, section 2.1. */
  datatype Spec = Suffix(length: nat) | From(first: nat) | FromTo(first: nat, last: nat)

  /** The bytes a spec selects of a representation of `fileSize` bytes, if it selects any. */
  ghost predicate Selects(spec: Spec, fileSize: nat, i: nat) {
    && i < fileSize
    && match spec
       case Suffix(n) => i + n >= fileSize
       case From(a) => a <= i
       case FromTo(a, b) => a <= i <= b
  }

  /** A decimal number without a sign. */
  predicate Numeral(s: string, n: nat) {
    s != "" && Digits(s) && Value(s) == n
  }

  predicate Denotes(first: string, spec: Spec) {
    match spec
    case Suffix(n) => first != "" && first[0] == '-' && Numeral(first[1..], n)
    case From(a) => first != "" && first[|first| - 1] == '-' && Numeral(first[..|first| - 1], a)
    case FromTo(a, b) =>
      var d := Dash(first);
      d < |first| && Numeral(first[..d], a) && Numeral(first[d + 1..], b)
  }

  predicate Finite(spec: Spec) {
    spec.Suffix? ==> IsFinite(spec.length)
  }

  lemma DashIs(s: string, d: nat)
    requires d < |s| && s[d] == '-' && Digits(s[..d])
    ensures Dash(s) == d
  {
    assert forall j :: 0 <= j < d ==> s[j] == s[..d][j];
  }

  /** Soundness and completeness in one: the parser returns a range exactly when the text is a spec
      (with a suffix length small enough for `parseInt`) that selects at least one byte, and then the
      range holds exactly the selected bytes. */
  lemma ParsesWhatIsDenoted(first: string, spec: Spec, fileSize: nat)
    requires fileSize > 0 && Denotes(first, spec) && Finite(spec)
    ensures var r := ParseSpec(first, fileSize);
            && (r.Some? <==> exists i: nat :: Selects(spec, fileSize, i))
            && (r.Some? ==> r.value.start <= r.value.end < fileSize
                            && forall i: nat :: Selects(spec, fileSize, i) <==> r.value.start <= i <= r.value.end)
  {
    match spec {
      case Suffix(n) =>
        DashIs(first, 0);
        assert n > 0 ==> Selects(spec, fileSize, fileSize - 1);
      case From(a) =>
        DashIs(first, |first| - 1);
        assert first[|first|..] == "";
        assert a < fileSize ==> Selects(spec, fileSize, a);
      case FromTo(a, b) =>
        assert a <= b && a < fileSize ==> Selects(spec, fileSize, a);
    }
  }

  lemma OnlySpecsParse(first: string, fileSize: nat)
    requires fileSize > 0 && ParseSpec(first, fileSize).Some?
    ensures exists spec: Spec :: Denotes(first, spec) && Finite(spec)
  {
    var d := Dash(first);
    var left, right := first[..d], first[d + 1..];
    if left == "" {
      assert Denotes(first, Suffix(Value(right)));
    } else if right == "" {
      assert left == first[..|first| - 1];
      assert Denotes(first, From(Value(left)));
    } else {
      assert Denotes(first, FromTo(Value(left), Value(right)));
    }
  }

  /** Every result lies inside the file. */
  lemma ResultInFile(range: Option<string>, fileSize: int)
    requires ParseSingleByteRange(range, fileSize).Some?
    ensures var r := ParseSingleByteRange(range, fileSize).value; 0 <= r.start <= r.end < fileSize
  {
    var first := Trim(UpToComma(Trim(range.value)[6..]));
    OnlySpecsParse(first, fileSize);
    var spec :| Denotes(first, spec) && Finite(spec);
    ParsesWhatIsDenoted(first, spec, fileSize);
  }

  // Printing and parsing back ---------------------------------------------------------------------

  function DigitChar(n: nat): char
    requires n < 10
  {
    '0' + n as char
  }

  function Decimal(n: nat): (s: string)
    ensures Numeral(s, n)
  {
    if n < 10 then [DigitChar(n)]
    else
      var s := Decimal(n / 10) + [DigitChar(n % 10)];
      assert s[..|s| - 1] == Decimal(n / 10);
      s
  }

  /** The header sent to the object store. */
  function Print(r: Range): string {
    PREFIX + Decimal(r.start) + "-" + Decimal(r.end)
  }

  /** A header that starts with the prefix and holds no blank and no comma reaches the spec parser
      unchanged. */
  lemma PlainHeader(body: string, fileSize: int)
    requires fileSize > 0 && body != ""
    requires forall i :: 0 <= i < |body| ==> IsDigit(body[i]) || body[i] == '-'
    ensures ParseSingleByteRange(Some(PREFIX + body), fileSize) == ParseSpec(body, fileSize)
  {
    var h := PREFIX + body;
    TrimIs(h);
    PrefixOf(body);
    NoComma(body);
    TrimIs(body);
  }

  lemma TrimIs(s: string)
    requires s != "" && !IsSpace(s[0]) && !IsSpace(s[|s| - 1])
    ensures Trim(s) == s
  {
  }

  lemma PrefixOf(body: string)
    ensures HasPrefix(PREFIX + body) && (PREFIX + body)[6..] == body
  {
  }

  lemma {:induction false} NoComma(s: string)
    requires forall i :: 0 <= i < |s| ==> s[i] != ','
    ensures UpToComma(s) == s
  {
    if s == "" {
    } else {
      NoComma(s[1..]);
      assert s == [s[0]] + s[1..];
    }
  }

  lemma PrintedBody(r: Range)
    ensures var body := Decimal(r.start) + "-" + Decimal(r.end);
            && (forall i :: 0 <= i < |body| ==> IsDigit(body[i]) || body[i] == '-')
            && Denotes(body, FromTo(r.start, r.end))
  {
    var a, b := Decimal(r.start), Decimal(r.end);
    var body := a + "-" + b;
    assert body[..|a|] == a && body[|a| + 1..] == b;
    DashIs(body, |a|);
  }

  /** Printing a range and parsing it for a file it fits gives the same range back; for a shorter file
      the end is clamped. */
  lemma PrintParse(r: Range, fileSize: nat)
    requires r.start <= r.end && r.start < fileSize
    ensures ParseSingleByteRange(Some(Print(r)), fileSize)
            == Some(Range(r.start, if r.end >= fileSize then fileSize - 1 else r.end))
  {
    var body := Decimal(r.start) + "-" + Decimal(r.end);
    PrintedBody(r);
    PlainHeader(body, fileSize);
    assert Print(r) == PREFIX + body;
  }

  /** The suffix form gives the last min(n, size) bytes. */
  lemma SuffixForm(n: nat, fileSize: nat)
    requires 0 < n && IsFinite(n) && 0 < fileSize
    ensures ParseSingleByteRange(Some(PREFIX + "-" + Decimal(n)), fileSize)
            == Some(Range(fileSize - (if n < fileSize then n else fileSize), fileSize - 1))
  {
    var body := "-" + Decimal(n);
    assert body[1..] == Decimal(n);
    DashIs(body, 0);
    SuffixSpec(body, n, fileSize);
    PlainHeader(body, fileSize);
    assert PREFIX + "-" + Decimal(n) == PREFIX + body;
  }

  lemma SuffixSpec(first: string, n: nat, fileSize: nat)
    requires 0 < n && IsFinite(n) && 0 < fileSize && Denotes(first, Suffix(n))
    ensures ParseSpec(first, fileSize) == Some(Range(fileSize - (if n < fileSize then n else fileSize), fileSize - 1))
  {
    DashIs(first, 0);
  }

  /** What is sent to the store parses to what was parsed: the printed header is a normal form. */
  lemma Normalizes(range: Option<string>, fileSize: int)
    requires ParseSingleByteRange(range, fileSize).Some?
    ensures var r := ParseSingleByteRange(range, fileSize); ParseSingleByteRange(Some(Print(r.value)), fileSize) == r
  {
    ResultInFile(range, fileSize);
    PrintParse(ParseSingleByteRange(range, fileSize).value, fileSize);
  }

  // The header ------------------------------------------------------------------------------------

  /** `bytes=` in any mixture of cases. */
  predicate IsUnit(unit: string) {
    && |unit| == 6
    && unit[0] in "bB" && unit[1] in "yY" && unit[2] in "tT" && unit[3] in "eE" && unit[4] in "sS" && unit[5] == '='
  }

  lemma UnitIsPrefix(r: string)
    ensures HasPrefix(r) <==> |r| >= 6 && IsUnit(r[..6])
  {
    if |r| >= 6 {
      LowerMeans(r[0]);
      LowerMeans(r[1]);
      LowerMeans(r[2]);
      LowerMeans(r[3]);
      LowerMeans(r[4]);
      LowerMeans(r[5]);
    }
  }

  lemma LowerMeans(c: char)
    ensures Lower(c) == 'b' <==> c == 'b' || c == 'B'
    ensures Lower(c) == 'y' <==> c == 'y' || c == 'Y'
    ensures Lower(c) == 't' <==> c == 't' || c == 'T'
    ensures Lower(c) == 'e' <==> c == 'e' || c == 'E'
    ensures Lower(c) == 's' <==> c == 's' || c == 'S'
    ensures Lower(c) == '=' <==> c == '='
  {
  }

  /** What stands before the first comma. */
  lemma {:induction false} UpToCommaMeans(s: string)
    ensures UpToComma(s) <= s && ',' !in UpToComma(s)
    ensures |UpToComma(s)| < |s| ==> s[|UpToComma(s)|] == ','
  {
    if s == "" || s[0] == ',' {
    } else {
      UpToCommaMeans(s[1..]);
      assert s == [s[0]] + s[1..];
    }
  }

  /** Of a header, however it is padded, what counts is the unit, in any case, and the first range up to a
      comma, without its own padding. */
  lemma HeaderMeans(before: string, unit: string, ranges: string, after: string, fileSize: int)
    requires Spaces(before) && Spaces(after) && IsUnit(unit) && fileSize > 0
    requires ranges == "" || !IsSpace(ranges[|ranges| - 1])
    ensures ParseSingleByteRange(Some(before + (unit + ranges) + after), fileSize)
            == ParseSpec(Trim(UpToComma(ranges)), fileSize)
  {
    CoreMeans(unit, ranges);
    TrimUnpads(before, unit + ranges, after);
    ParsedFromCore(before + (unit + ranges) + after, unit, ranges, fileSize);
  }

  lemma CoreMeans(unit: string, ranges: string)
    requires IsUnit(unit) && (ranges == "" || !IsSpace(ranges[|ranges| - 1]))
    ensures var core := unit + ranges;
            core != "" && !IsSpace(core[0]) && !IsSpace(core[|core| - 1]) && HasPrefix(core) && core[6..] == ranges
  {
    var core := unit + ranges;
    assert core[|core| - 1] == if ranges == "" then unit[5] else ranges[|ranges| - 1];
    assert core[..6] == unit;
    UnitIsPrefix(core);
  }

  lemma ParsedFromCore(header: string, unit: string, ranges: string, fileSize: int)
    requires header != "" && fileSize > 0 && Trim(header) == unit + ranges
    requires HasPrefix(unit + ranges) && (unit + ranges)[6..] == ranges
    ensures ParseSingleByteRange(Some(header), fileSize) == ParseSpec(Trim(UpToComma(ranges)), fileSize)
  {
  }

  /** Without a header, without bytes or without the unit there is no range. */
  lemma NoHeaderNoRange(range: Option<string>, fileSize: int)
    ensures range.None? || range == Some("") || fileSize <= 0 ==> ParseSingleByteRange(range, fileSize) == None
    ensures range.Some? && !(|Trim(range.value)| >= 6 && IsUnit(Trim(range.value)[..6])) ==>
              ParseSingleByteRange(range, fileSize) == None
  {
    if range.Some? {
      UnitIsPrefix(Trim(range.value));
    }
  }
}
