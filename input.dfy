/** The request-parameter validators of the search API: non-empty strings,
    integers, numeric ranges, comma lists, numbers-or-ranges, coordinate,
    bbox and point strings, and date ranges.

    Python's `int()`, `float()` and `dateparser.parse` are parameters
    (`IntParser`, `FloatParser`, `DateParser`); `str.split`, `str.join`,
    `str.replace` and the regular expressions are written out. A raised
    `ValueError` is a `Failure` carrying the `Reason` of the innermost
    check that failed. */
module Input {
  import opened Wrappers
  import Text

  /** Why a value was rejected. */
  datatype Reason =
    | EmptyString(v: string)
    | InvalidInt(v: string)
    | InvalidDate(v: string)
    | DateRangeArity
    | RangeShape(v: string)
    | RangeReversed
    | InvalidCoordinate(c: string)
    | OddCoordinateCount(pieces: seq<string>)
    | BboxArity(v: string)
    | PointArity(v: string)

  /** `int(s)`: the integer Python reads from `s`, if any. */
  type IntParser = string -> Option<int>

  /** `float(s)`: the number Python reads from `s`, if any. */
  type FloatParser = string -> Option<real>

  /** A lone number (`h(v)`, or a range whose ends are equal) or a
      list `[low, high]` with `low < high`. */
  datatype Range = Single(x: real) | Span(lo: real, hi: real)

  /** A calendar instant as `dateparser.parse` returns it. */
  datatype DateTime = DateTime(year: nat, month: nat, day: nat, hour: nat, minute: nat, second: nat)

  /** `dateparser.parse(s)`: `None` when `s` is not read as a date. */
  type DateParser = string -> Option<DateTime>

  // ---------------------------------------------------------------------
  // The numeral grammar `-?\d+(\.\d*)?`

  predicate IsDigit(c: char) {
    '0' <= c <= '9'
  }

  predicate AllDigits(s: string) {
    forall i :: 0 <= i < |s| ==> IsDigit(s[i])
  }

  /** The number of digits `s` starts with. */
  function LeadingDigits(s: string): (n: nat)
    ensures n <= |s|
    ensures forall i :: 0 <= i < n ==> IsDigit(s[i])
    ensures n < |s| ==> !IsDigit(s[n])
    decreases |s|
  {
    if s != [] && IsDigit(s[0]) then 1 + LeadingDigits(s[1..]) else 0
  }

  /** `s` is, in full, `\d+(\.\d*)?`. */
  predicate IsUnsigned(s: string) {
    var n := LeadingDigits(s);
    n >= 1 && (n == |s| || (s[n] == '.' && AllDigits(s[n + 1..])))
  }

  /** `s` is, in full, `-?\d+(\.\d*)?`. */
  predicate IsNumeral(s: string) {
    if |s| > 0 && s[0] == '-' then IsUnsigned(s[1..]) else IsUnsigned(s)
  }

  /** Python's `$` without `MULTILINE` matches at the very end and also just
      before a final newline: `^(-?\d+(\.\d*)?)$` finds a match in `s`. */
  predicate NumberMatch(s: string) {
    IsNumeral(s) || (|s| > 0 && s[|s| - 1] == '\n' && IsNumeral(s[..|s| - 1]))
  }

  /** A numeral is a digit, possibly after a minus sign, then digits and at
      most the one point. */
  lemma NumeralChars(s: string)
    requires IsNumeral(s)
    ensures |s| >= 1
    ensures forall i :: 0 <= i < |s| ==> IsDigit(s[i]) || s[i] == '.' || (i == 0 && s[i] == '-')
  {
    var t := if |s| > 0 && s[0] == '-' then s[1..] else s;
    var n := LeadingDigits(t);
    assert forall i :: 0 <= i < |t| ==> IsDigit(t[i]) || t[i] == '.' by {
      forall i | 0 <= i < |t| ensures IsDigit(t[i]) || t[i] == '.' {
        if i > n {
          assert t[i] == t[n + 1..][i - n - 1];
        }
      }
    }
  }

  /** The first `-` of `s` at or after position `i`. */
  function FindDash(s: string, i: nat): (k: Option<nat>)
    ensures k.Some? ==> i <= k.value < |s| && s[k.value] == '-'
    ensures k.Some? ==> forall j :: i <= j < k.value ==> s[j] != '-'
    ensures k.None? ==> forall j :: i <= j < |s| ==> s[j] != '-'
    decreases |s| - i
  {
    if i >= |s| then None
    else if s[i] == '-' then Some(i)
    else FindDash(s, i + 1)
  }

  /** `re.search(r'^(-?\d+(\.\d*)?)-(-?\d+(\.\d*)?)$', s)`: groups 1 and 3.
      The first group holds no `-` after its first character, so the
      separator is the first `-` after position 0. */
  function RangeMatch(s: string): Option<(string, string)> {
    match FindDash(s, 1)
    case None => None
    case Some(k) =>
      var low, rest := s[..k], s[k + 1..];
      if !IsNumeral(low) then None
      else if IsNumeral(rest) then Some((low, rest))
      else if |rest| > 0 && rest[|rest| - 1] == '\n' && IsNumeral(rest[..|rest| - 1]) then Some((low, rest[..|rest| - 1]))
      else None
  }

  /** `s` is `low-high`, with an optional final newline, for two numerals. */
  ghost predicate RangeShaped(s: string, low: string, high: string) {
    IsNumeral(low) && IsNumeral(high) && (s == low + "-" + high || s == low + "-" + high + "\n")
  }

  /** The pieces of `low-rest`. */
  lemma DashSplit(s: string, low: string, rest: string)
    requires s == low + "-" + rest
    ensures |s| > |low| && s[..|low|] == low && s[|low|] == '-' && s[|low| + 1..] == rest
  {
  }

  /** A string is its part before a `-`, the `-`, and its part after. */
  lemma DashJoin(s: string, k: nat)
    requires k < |s| && s[k] == '-'
    ensures s == s[..k] + "-" + s[k + 1..]
  {
  }

  /** `low-rest`, where `rest` is `high` and a newline. */
  lemma NewlineJoin(s: string, low: string, rest: string)
    requires s == low + "-" + rest && |rest| > 0 && rest[|rest| - 1] == '\n'
    ensures s == low + "-" + rest[..|rest| - 1] + "\n"
  {
    assert rest == rest[..|rest| - 1] + "\n";
  }

  /** What the range expression matches has the range shape. */
  lemma RangeMatchShaped(s: string)
    requires RangeMatch(s).Some?
    ensures RangeShaped(s, RangeMatch(s).value.0, RangeMatch(s).value.1)
  {
    var k := FindDash(s, 1).value;
    DashJoin(s, k);
    var low, rest := s[..k], s[k + 1..];
    if !IsNumeral(rest) {
      NewlineJoin(s, low, rest);
    }
  }

  /** A numeral never holds a newline. */
  lemma NumeralHasNoNewline(s: string)
    requires IsNumeral(s)
    ensures s[|s| - 1] != '\n'
  {
    NumeralChars(s);
  }

  /** In `low-high` the separator is the first `-` after position 0. */
  lemma DashAfterNumeral(s: string, low: string)
    requires IsNumeral(low) && |s| > |low| && s[..|low|] == low && s[|low|] == '-'
    ensures FindDash(s, 1) == Some(|low|)
  {
    NumeralChars(low);
    assert forall j :: 1 <= j < |low| ==> s[j] != '-' by {
      forall j | 1 <= j < |low| ensures s[j] != '-' {
        assert s[j] == low[j];
      }
    }
  }

  /** `low-rest` where `low` is a numeral is matched at its first `-` after
      position 0, whatever `rest` is. */
  lemma MatchSplitsAt(s: string, low: string, rest: string)
    requires IsNumeral(low) && s == low + "-" + rest
    ensures FindDash(s, 1) == Some(|low|) && s[..|low|] == low && s[|low| + 1..] == rest
  {
    DashSplit(s, low, rest);
    DashAfterNumeral(s, low);
  }

  /** `low-high` with a final newline is `low-` then `high` and the newline. */
  lemma NewlineRest(s: string, low: string, high: string)
    requires s == low + "-" + high + "\n"
    ensures s == low + "-" + (high + "\n")
  {
  }

  /** Every string of the range shape is matched, with the two numerals as
      its groups. */
  lemma ShapedRangeMatches(s: string, low: string, high: string)
    requires RangeShaped(s, low, high)
    ensures RangeMatch(s) == Some((low, high))
  {
    if s == low + "-" + high {
      MatchSplitsAt(s, low, high);
    } else {
      NewlineRest(s, low, high);
      var rest := high + "\n";
      MatchSplitsAt(s, low, rest);
      assert !IsNumeral(rest) by {
        if IsNumeral(rest) {
          NumeralHasNoNewline(rest);
        }
      }
      assert rest[..|rest| - 1] == high;
    }
  }

  /** The range expression matches exactly the strings of the range shape,
      and its groups are the two numerals. */
  lemma RangeMatchSpec(s: string, low: string, high: string)
    ensures RangeMatch(s) == Some((low, high)) <==> RangeShaped(s, low, high)
  {
    if RangeMatch(s) == Some((low, high)) {
      RangeMatchShaped(s);
    }
    if RangeShaped(s, low, high) {
      ShapedRangeMatches(s, low, high);
    }
  }

  /** A lone number has no range shape, so the two branches of
      `parse_number_or_range` never both apply. */
  lemma NumberIsNotRange(s: string)
    requires NumberMatch(s)
    ensures RangeMatch(s).None?
  {
    var t := if IsNumeral(s) then s else s[..|s| - 1];
    NumeralChars(t);
    assert forall j :: 1 <= j < |s| ==> s[j] != '-' by {
      forall j | 1 <= j < |s| ensures s[j] != '-' {
        if j < |t| {
          assert s[j] == t[j];
        }
      }
    }
  }

  // ---------------------------------------------------------------------
  // Parsers

  /** `parse_string(v)`: the value itself, unless it is empty. */
  function ParseString(v: string): (r: Result<string, Reason>)
    ensures r.Success? <==> |v| > 0
    ensures r.Success? ==> r.value == v
    ensures r.Failure? ==> r.error == EmptyString(v)
  {
    if |v| > 0 then Success(v) else Failure(EmptyString(v))
  }

  /** `parse_int(v)`. */
  function ParseInt(v: string, intOf: IntParser): (r: Result<int, Reason>)
    ensures r.Success? <==> intOf(v).Some?
    ensures r.Success? ==> r.value == intOf(v).value
    ensures r.Failure? ==> r.error == InvalidInt(v)
  {
    match intOf(v)
    case None => Failure(InvalidInt(v))
    case Some(n) => Success(n)
  }

  /** `parse_int` as a range-end parser: the integer as a number. */
  function IntNumber(intOf: IntParser): string -> Result<real, Reason> {
    s => match ParseInt(s, intOf) case Success(n) => Success(n as real) case Failure(e) => Failure(e)
  }

  /** `parse_range(v, h)`: spaces dropped, the shape `low-high` required,
      both ends read by `h`; reversed ends fail, equal ends give the lone
      number, other ends the pair. */
  function ParseRange(v: string, h: string -> Result<real, Reason>): (r: Result<Range, Reason>)
    ensures RangeMatch(Text.Remove(v, ' ')).None? ==> r == Failure(RangeShape(Text.Remove(v, ' ')))
    ensures RangeMatch(Text.Remove(v, ' ')).Some? ==>
      var (low, high) := RangeMatch(Text.Remove(v, ' ')).value;
      (h(low).Failure? ==> r == Failure(h(low).error)) &&
      (h(low).Success? && h(high).Failure? ==> r == Failure(h(high).error)) &&
      (h(low).Success? && h(high).Success? ==>
        (h(low).value > h(high).value ==> r == Failure(RangeReversed)) &&
        (h(low).value == h(high).value ==> r == Success(Single(h(low).value))) &&
        (h(low).value < h(high).value ==> r == Success(Span(h(low).value, h(high).value))))
    ensures r.Success? && r.value.Span? ==> r.value.lo < r.value.hi
  {
    var s := Text.Remove(v, ' ');
    match RangeMatch(s)
    case None => Failure(RangeShape(s))
    case Some((low, high)) =>
      match h(low)
      case Failure(e) => Failure(e)
      case Success(a) =>
        match h(high)
        case Failure(e) => Failure(e)
        case Success(b) =>
          if a > b then Failure(RangeReversed)
          else if a == b then Success(Single(a))
          else Success(Span(a, b))
  }

  /** A range written as two numerals with no spaces is read end by end. */
  lemma RangeOfNumerals(low: string, high: string, h: string -> Result<real, Reason>, a: real, b: real)
    requires IsNumeral(low) && IsNumeral(high)
    requires h(low) == Success(a) && h(high) == Success(b)
    ensures ParseRange(low + "-" + high, h) ==
      if a > b then Failure(RangeReversed) else if a == b then Success(Single(a)) else Success(Span(a, b))
  {
    var s := low + "-" + high;
    NumeralChars(low);
    NumeralChars(high);
    assert ' ' !in s by {
      forall i | 0 <= i < |s| ensures s[i] != ' ' {
        if i > |low| {
          assert s[i] == high[i - |low| - 1];
        }
      }
    }
    Text.RemoveAbsent(s, ' ');
    RangeMatchSpec(s, low, high);
  }

  /** Spaces anywhere in a range are ignored. */
  lemma RangeIgnoresSpaces(v: string, h: string -> Result<real, Reason>)
    ensures ParseRange(Text.Remove(v, ' '), h) == ParseRange(v, h)
  {
    Text.RemoveIdempotent(v, ' ');
  }

  /** `s` is the range shape with two ends that `int()` reads, low first. */
  predicate IsIntRange(s: string, intOf: IntParser) {
    match RangeMatch(s)
    case None => false
    case Some((low, high)) =>
      intOf(low).Some? && intOf(high).Some? && intOf(low).value <= intOf(high).value
  }

  /** `parse_int_range(v)`: a range whose ends `int()` reads. It is accepted
      exactly when its ends are read and ordered; each failure names its
      cause: the shape, the first end `int()` cannot read, or reversed ends. */
  function ParseIntRange(v: string, intOf: IntParser): (r: Result<Range, Reason>)
    ensures r.Success? <==> IsIntRange(Text.Remove(v, ' '), intOf)
    ensures r.Success? ==>
      var (low, high) := RangeMatch(Text.Remove(v, ' ')).value;
      (match r.value
       case Single(x) => x == intOf(low).value as real && intOf(low) == intOf(high)
       case Span(lo, hi) => lo == intOf(low).value as real && hi == intOf(high).value as real && lo < hi)
    ensures RangeMatch(Text.Remove(v, ' ')).None? ==> r == Failure(RangeShape(Text.Remove(v, ' ')))
    ensures RangeMatch(Text.Remove(v, ' ')).Some? ==>
      var (low, high) := RangeMatch(Text.Remove(v, ' ')).value;
      (intOf(low).None? ==> r == Failure(InvalidInt(low))) &&
      (intOf(low).Some? && intOf(high).None? ==> r == Failure(InvalidInt(high))) &&
      (intOf(low).Some? && intOf(high).Some? && intOf(low).value > intOf(high).value ==> r == Failure(RangeReversed))
  {
    ParseRange(v, IntNumber(intOf))
  }

  /** Each piece of a list, read by `h`; the first failure is the result. */
  function MapAll<T>(pieces: seq<string>, h: string -> Result<T, Reason>): (r: Result<seq<T>, Reason>)
    ensures r.Success? <==> forall i :: 0 <= i < |pieces| ==> h(pieces[i]).Success?
    ensures r.Success? ==> |r.value| == |pieces| && forall i :: 0 <= i < |pieces| ==> r.value[i] == h(pieces[i]).value
    ensures r.Failure? ==>
      exists k :: 0 <= k < |pieces| && h(pieces[k]) == Failure(r.error) && forall i :: 0 <= i < k ==> h(pieces[i]).Success?
    decreases |pieces|
  {
    if pieces == [] then Success([])
    else
      match h(pieces[0])
      case Failure(e) => Failure(e)
      case Success(x) =>
        match MapAll(pieces[1..], h)
        case Failure(e) =>
          assert forall i :: 1 <= i < |pieces| ==> pieces[i] == pieces[1..][i - 1];
          Failure(e)
        case Success(xs) => Success([x] + xs)
  }

  /** `parse_list(v, h)`: `h` on every comma-separated piece, in order. */
  function ParseList<T>(v: string, h: string -> Result<T, Reason>): (r: Result<seq<T>, Reason>)
    ensures r.Success? <==> forall i :: 0 <= i < |Text.Split(v, ',')| ==> h(Text.Split(v, ',')[i]).Success?
    ensures r.Success? ==>
      |r.value| == |Text.Split(v, ',')| &&
      forall i :: 0 <= i < |Text.Split(v, ',')| ==> r.value[i] == h(Text.Split(v, ',')[i]).value
    ensures r.Failure? ==>
      exists k :: 0 <= k < |Text.Split(v, ',')| && h(Text.Split(v, ',')[k]) == Failure(r.error) &&
        forall i :: 0 <= i < k ==> h(Text.Split(v, ',')[i]).Success?
  {
    var pieces := Text.Split(v, ',');
    var r := MapAll(pieces, h);
    assert r.Success? <==> forall i :: 0 <= i < |pieces| ==> h(pieces[i]).Success?;
    assert pieces == Text.Split(v, ',');
    r
  }

  /** A list written out from comma-free pieces is read piece by piece. */
  lemma ListOfJoin<T>(parts: seq<string>, h: string -> Result<T, Reason>)
    requires |parts| >= 1
    requires forall i :: 0 <= i < |parts| ==> ',' !in parts[i]
    ensures ParseList(Text.Join(parts, ','), h) == MapAll(parts, h)
  {
    Text.SplitJoin(parts, ',');
  }

  /** `parse_string_list(v)`: the comma-separated pieces, none of them empty. */
  function ParseStringList(v: string): (r: Result<seq<string>, Reason>)
    ensures r.Success? <==> forall i :: 0 <= i < |Text.Split(v, ',')| ==> |Text.Split(v, ',')[i]| > 0
    ensures r.Success? ==> r.value == Text.Split(v, ',')
    ensures r.Failure? ==> r.error == EmptyString("")
  {
    var pieces := Text.Split(v, ',');
    var r := ParseList(v, ParseString);
    assert forall i :: 0 <= i < |pieces| ==> (ParseString(pieces[i]).Success? <==> |pieces[i]| > 0);
    assert r.Success? ==> r.value == pieces;
    r
  }

  /** A string list that is accepted is the input cut at its commas. */
  lemma StringListRoundTrip(v: string)
    requires ParseStringList(v).Success?
    ensures Text.Join(ParseStringList(v).value, ',') == v
  {
    Text.JoinSplit(v, ',');
  }

  /** Non-empty comma-free strings joined by commas are read back as they are. */
  lemma StringListOfJoin(parts: seq<string>)
    requires |parts| >= 1
    requires forall i :: 0 <= i < |parts| ==> |parts[i]| > 0 && ',' !in parts[i]
    ensures ParseStringList(Text.Join(parts, ',')) == Success(parts)
  {
    Text.SplitJoin(parts, ',');
  }

  /** `parse_number_or_range(v, h)`: `h(v)` for a lone number, else `parse_range`. */
  function ParseNumberOrRange(v: string, h: string -> Result<real, Reason>): (r: Result<Range, Reason>)
    ensures NumberMatch(v) ==> (r.Success? <==> h(v).Success?)
    ensures NumberMatch(v) && r.Success? ==> r.value == Single(h(v).value)
    ensures NumberMatch(v) && r.Failure? ==> r.error == h(v).error
    ensures !NumberMatch(v) ==> r == ParseRange(v, h)
  {
    if NumberMatch(v) then
      match h(v)
      case Success(x) => Success(Single(x))
      case Failure(e) => Failure(e)
    else ParseRange(v, h)
  }

  /** The comma-separated pieces of `v` once its spaces are dropped. */
  function SpacelessPieces(v: string): seq<string> {
    Text.Split(Text.Remove(v, ' '), ',')
  }

  /** `parse_number_or_range_list(v, h)`: spaces dropped, then a number or
      a range per comma-separated piece. */
  function ParseNumberOrRangeList(v: string, h: string -> Result<real, Reason>): (r: Result<seq<Range>, Reason>)
    ensures r.Success? <==> forall i :: 0 <= i < |SpacelessPieces(v)| ==> ParseNumberOrRange(SpacelessPieces(v)[i], h).Success?
    ensures r.Success? ==>
      |r.value| == |SpacelessPieces(v)| &&
      forall i :: 0 <= i < |SpacelessPieces(v)| ==> r.value[i] == ParseNumberOrRange(SpacelessPieces(v)[i], h).value
  {
    var pieces := SpacelessPieces(v);
    var each := s => ParseNumberOrRange(s, h);
    assert forall i :: 0 <= i < |pieces| ==> each(pieces[i]) == ParseNumberOrRange(pieces[i], h);
    MapAll(pieces, each)
  }

  /** Spaces anywhere in a number-or-range list are ignored. */
  lemma NumberOrRangeListIgnoresSpaces(v: string, h: string -> Result<real, Reason>)
    ensures ParseNumberOrRangeList(Text.Remove(v, ' '), h) == ParseNumberOrRangeList(v, h)
  {
    Text.RemoveIdempotent(v, ' ');
  }

  /** The first piece `float()` does not read, in order. */
  function FirstNonNumber(pieces: seq<string>, floatOf: FloatParser): (r: Option<string>)
    ensures r.None? <==> forall i :: 0 <= i < |pieces| ==> floatOf(pieces[i]).Some?
    ensures r.Some? ==>
      exists k :: 0 <= k < |pieces| && pieces[k] == r.value && floatOf(r.value).None? && forall i :: 0 <= i < k ==> floatOf(pieces[i]).Some?
    decreases |pieces|
  {
    if pieces == [] then None
    else if floatOf(pieces[0]).None? then Some(pieces[0])
    else
      var r := FirstNonNumber(pieces[1..], floatOf);
      assert forall i :: 1 <= i < |pieces| ==> pieces[i] == pieces[1..][i - 1];
      r
  }

  /** Every comma-separated piece of `v` is a number. */
  ghost predicate AllNumbers(v: string, floatOf: FloatParser) {
    forall i :: 0 <= i < |Text.Split(v, ',')| ==> floatOf(Text.Split(v, ',')[i]).Some?
  }

  /** `parse_coord_string(v)`: every piece a number and an even count of
      them; an accepted string comes back unchanged. */
  function ParseCoordString(v: string, floatOf: FloatParser): (r: Result<string, Reason>)
    ensures r.Success? <==> AllNumbers(v, floatOf) && |Text.Split(v, ',')| % 2 == 0
    ensures r.Success? ==> r.value == v
    ensures !AllNumbers(v, floatOf) ==>
      r.Failure? && r.error.InvalidCoordinate? &&
      exists k :: 0 <= k < |Text.Split(v, ',')| && Text.Split(v, ',')[k] == r.error.c && floatOf(r.error.c).None? &&
        forall i :: 0 <= i < k ==> floatOf(Text.Split(v, ',')[i]).Some?
    ensures AllNumbers(v, floatOf) && |Text.Split(v, ',')| % 2 != 0 ==>
      r == Failure(OddCoordinateCount(Text.Split(v, ',')))
  {
    var pieces := Text.Split(v, ',');
    match FirstNonNumber(pieces, floatOf)
    case Some(c) => Failure(InvalidCoordinate(c))
    case None =>
      if |pieces| % 2 != 0 then Failure(OddCoordinateCount(pieces))
      else
        Text.JoinSplit(v, ',');
        Success(Text.Join(pieces, ','))
  }

  /** `parse_bbox_string(v)`: a coordinate string of exactly four numbers. */
  function ParseBboxString(v: string, floatOf: FloatParser): (r: Result<string, Reason>)
    ensures r.Success? <==> AllNumbers(v, floatOf) && |Text.Split(v, ',')| == 4
    ensures r.Success? ==> r.value == v
    ensures AllNumbers(v, floatOf) && |Text.Split(v, ',')| % 2 == 0 && |Text.Split(v, ',')| != 4 ==>
      r == Failure(BboxArity(v))
  {
    match ParseCoordString(v, floatOf)
    case Failure(e) => Failure(e)
    case Success(c) =>
      if |Text.Split(c, ',')| != 4 then Failure(BboxArity(c)) else Success(c)
  }

  /** `parse_point_string(v)`: a coordinate string of exactly two numbers. */
  function ParsePointString(v: string, floatOf: FloatParser): (r: Result<string, Reason>)
    ensures r.Success? <==> AllNumbers(v, floatOf) && |Text.Split(v, ',')| == 2
    ensures r.Success? ==> r.value == v
    ensures AllNumbers(v, floatOf) && |Text.Split(v, ',')| % 2 == 0 && |Text.Split(v, ',')| != 2 ==>
      r == Failure(PointArity(v))
  {
    match ParseCoordString(v, floatOf)
    case Failure(e) => Failure(e)
    case Success(c) =>
      if |Text.Split(c, ',')| != 2 then Failure(PointArity(c)) else Success(c)
  }

  /** A number below 100 in two digits, as `strftime` writes `%m`, `%d`,
      `%H`, `%M` and `%S`. */
  function Pad2(n: nat): (s: string)
    ensures n < 100 ==> |s| == 2
    ensures forall i :: 0 <= i < |s| ==> '0' <= s[i] <= '9'
  {
    if n < 10 then "0" + Text.NatDigits(n) else Text.NatDigits(n)
  }

  /** Digits hold no comma. */
  lemma DigitsHaveNoComma(s: string)
    requires forall i :: 0 <= i < |s| ==> '0' <= s[i] <= '9'
    ensures ',' !in s
  {
  }

  /** `d.strftime('%Y-%m-%dT%H:%M:%SZ')`. */
  function Stamp(d: DateTime): (s: string)
    ensures ',' !in s
  {
    var year, month, day := Text.NatDigits(d.year), Pad2(d.month), Pad2(d.day);
    var hour, minute, second := Pad2(d.hour), Pad2(d.minute), Pad2(d.second);
    DigitsHaveNoComma(year);
    DigitsHaveNoComma(month);
    DigitsHaveNoComma(day);
    DigitsHaveNoComma(hour);
    DigitsHaveNoComma(minute);
    DigitsHaveNoComma(second);
    year + "-" + month + "-" + day + "T" + hour + ":" + minute + ":" + second + "Z"
  }

  /** `parse_date(v)`: the instant the date parser reads, re-written in the
      fixed format. */
  function ParseDate(v: string, dateOf: DateParser): (r: Result<string, Reason>)
    ensures r.Success? <==> dateOf(v).Some?
    ensures r.Success? ==> r.value == Stamp(dateOf(v).value)
    ensures r.Failure? ==> r.error == InvalidDate(v)
  {
    match dateOf(v)
    case None => Failure(InvalidDate(v))
    case Some(d) => Success(Stamp(d))
  }

  /** `parse_date_range(v)`: exactly two comma-separated dates, each
      re-written; the result splits back into the two. */
  function ParseDateRange(v: string, dateOf: DateParser): (r: Result<string, Reason>)
    ensures var dates := Text.Split(v, ',');
      (r.Success? <==> |dates| == 2 && dateOf(dates[0]).Some? && dateOf(dates[1]).Some?) &&
      (|dates| != 2 ==> r == Failure(DateRangeArity)) &&
      (r.Success? ==> Text.Split(r.value, ',') == [Stamp(dateOf(dates[0]).value), Stamp(dateOf(dates[1]).value)])
    ensures r.Failure? ==> r.error == DateRangeArity || r.error.InvalidDate?
  {
    var dates := Text.Split(v, ',');
    if |dates| != 2 then Failure(DateRangeArity)
    else
      match ParseDate(dates[0], dateOf)
      case Failure(e) => Failure(e)
      case Success(start) =>
        match ParseDate(dates[1], dateOf)
        case Failure(e) => Failure(e)
        case Success(end) =>
          assert start + "," + end == Text.Join([start, end], ',');
          Text.SplitJoin([start, end], ',');
          Success(start + "," + end)
  }

  /** Two comma-free dates joined by a comma are a date range exactly when
      both are dates. */
  lemma DateRangeOfTwo(start: string, end: string, dateOf: DateParser)
    requires ',' !in start && ',' !in end
    ensures ParseDateRange(start + "," + end, dateOf).Success? <==> dateOf(start).Some? && dateOf(end).Some?
  {
    assert start + "," + end == Text.Join([start, end], ',');
    Text.SplitJoin([start, end], ',');
  }
}
