/** JavaScript values as the schema-less document store holds them, and the
    coercions the routes apply to them: truthiness, `||`, `== null`,
    `Number(...)`, Mongo's `$set`, and the string views express-validator
    takes before it runs `isEmpty` and `isNumeric`. */
module Js {

  /** Document ids and user ids are strings in this model. */
  type Id = string

  datatype Option<T> = None | Some(value: T)

  /** A value stored under one key of a document. `Null` stands for both
      `null` and `undefined` (the value of a key the document does not have):
      every test in the routes (`||`, `!= null`, `if (x)`) treats them alike. */
  datatype Value =
    | Null
    | Bool(b: bool)
    | Num(n: real)
    | NaN
    | Str(s: string)
    | Time(t: int)          // a valid Date: its time value, in milliseconds since the epoch
    | Arr(items: seq<Value>)

  /** A stored record: field name to value. */
  type Doc = map<string, Value>

  /** `doc.key`: the stored value, or undefined. */
  function Get(d: Doc, key: string): Value
  {
    if key in d then d[key] else Null
  }

  /** JavaScript truthiness: null, undefined, false, 0, NaN and '' are falsy;
      every object (a Date, an array) is truthy. */
  predicate Truthy(v: Value)
  {
    match v
    case Null => false
    case Bool(b) => b
    case Num(n) => n != 0.0
    case NaN => false
    case Str(s) => s != ""
    case Time(_) => true
    case Arr(_) => true
  }

  /** `a || b`. */
  function Or(a: Value, b: Value): Value
  {
    if Truthy(a) then a else b
  }

  /** Mongo's `$set` of every key of `patch`: those keys take the patch's
      values, every other key keeps its value. */
  function Merge(d: Doc, patch: Doc): (r: Doc)
    ensures r.Keys == d.Keys + patch.Keys
    ensures forall k :: k in patch ==> r[k] == patch[k]
    ensures forall k :: k in d && k !in patch ==> r[k] == d[k]
  {
    d + patch
  }

  // ---------------------------------------------------------------------
  // Decimal text: the grammar validator.js `isNumeric` accepts,
  // `^[+-]?([0-9]*[.])?[0-9]+$`, and the number such a text denotes.

  predicate IsDigit(c: char)
  {
    '0' <= c <= '9'
  }

  predicate AllDigits(s: string)
  {
    forall i :: 0 <= i < |s| ==> IsDigit(s[i])
  }

  function Pow10(k: nat): (r: nat)
    ensures r >= 1
  {
    if k == 0 then 1 else 10 * Pow10(k - 1)
  }

  /** The value of a string of decimal digits. */
  function DigitsValue(s: string): (r: nat)
    requires AllDigits(s)
    ensures r < Pow10(|s|)
  {
    if s == [] then 0
    else
      assert AllDigits(s[..|s| - 1]);
      DigitsValue(s[..|s| - 1]) * 10 + (s[|s| - 1] as int - '0' as int)
  }

  /** The text without one leading sign. */
  function Unsigned(s: string): string
  {
    if |s| > 0 && (s[0] == '+' || s[0] == '-') then s[1..] else s
  }

  /** The index of the first '.', or |s| when there is none. */
  function FirstDot(s: string): (i: nat)
    ensures i <= |s|
    ensures i < |s| ==> s[i] == '.'
    ensures forall j :: 0 <= j < i ==> s[j] != '.'
  {
    if s == [] then 0
    else if s[0] == '.' then 0
    else 1 + FirstDot(s[1..])
  }

  /** `([0-9]*[.])?[0-9]+`: digits, or digits, one dot and at least one digit. */
  predicate UnsignedDecimal(u: string)
  {
    var i := FirstDot(u);
    if i == |u| then |u| > 0 && AllDigits(u)
    else AllDigits(u[..i]) && i + 1 < |u| && AllDigits(u[i + 1..])
  }

  /** validator.js `isNumeric(str)` with its default options. */
  predicate IsNumericText(s: string)
  {
    UnsignedDecimal(Unsigned(s))
  }

  /** The number a decimal text denotes, when it is one. */
  function ParseNumeric(s: string): (r: Option<real>)
    ensures r.Some? <==> IsNumericText(s)
    ensures r.Some? && AllDigits(s) ==> r.value == DigitsValue(s) as real
  {
    var u := Unsigned(s);
    var i := FirstDot(u);
    if !UnsignedDecimal(u) then None
    else
      var magnitude :=
        if i == |u| then DigitsValue(u) as real
        else DigitsValue(u[..i]) as real + DigitsValue(u[i + 1..]) as real / Pow10(|u| - i - 1) as real;
      assert AllDigits(s) ==> u == s && i == |u| by {
        if AllDigits(s) && |s| > 0 {
          assert IsDigit(s[0]);
        }
      }
      Some(if |s| > 0 && s[0] == '-' then -magnitude else magnitude)
  }

  /** `Number(str)`: '' is 0, a decimal text its value, anything else NaN. */
  function StringToNumber(s: string): (r: Value)
    ensures r.Num? || r.NaN?
    ensures s == "" ==> r == Num(0.0)
    ensures IsNumericText(s) ==> r == Num(ParseNumeric(s).value)
    ensures s != "" && !IsNumericText(s) ==> r == NaN
  {
    if s == "" then Num(0.0)
    else match ParseNumeric(s)
      case Some(x) => Num(x)
      case None => NaN
  }

  /** `Number(v)`: always a number (possibly NaN); a number stays itself. */
  function NumberOf(v: Value): (r: Value)
    ensures r.Num? || r.NaN?
    ensures (v.Num? || v.NaN?) ==> r == v
    ensures v.Bool? ==> r == Num(if v.b then 1.0 else 0.0)
    ensures v.Str? ==> r == StringToNumber(v.s)
    ensures v.Time? ==> r == Num(v.t as real)
  {
    match v
    case Null => Num(0.0)              // Number(null); the formatters never reach it
    case Bool(b) => Num(if b then 1.0 else 0.0)
    case Num(_) => v
    case NaN => NaN
    case Str(s) => StringToNumber(s)
    case Time(t) => Num(t as real)
    case Arr(_) => NaN
  }

  // ---------------------------------------------------------------------
  // express-validator first turns a field into a string: null, undefined and
  // NaN become '', a string stays itself, and a number, a boolean or a Date
  // becomes a non-empty rendering.

  /** `isEmpty()` on the string view of a request field. */
  predicate IsEmptyValue(v: Value)
  {
    match v
    case Null => true
    case NaN => true
    case Str(s) => s == ""
    case _ => false
  }

  /** `isNumeric()` on the string view of a request field. The model treats
      every finite number as numeric; booleans and Dates render as words. */
  predicate IsNumericValue(v: Value)
  {
    match v
    case Num(_) => true
    case Str(s) => IsNumericText(s)
    case _ => false
  }

  /** What passes `isNumeric()` becomes a number under `Number(...)`. */
  lemma NumericFieldIsNumber(v: Value)
    requires IsNumericValue(v)
    ensures NumberOf(v).Num?
  {
  }

  /** A text of digits is the number it spells. */
  lemma DigitTextIsItsValue(s: string)
    requires |s| > 0 && AllDigits(s)
    ensures NumberOf(Str(s)) == Num(DigitsValue(s) as real)
  {
    assert IsDigit(s[0]);
    assert Unsigned(s) == s;
    assert !IsDigit('.');
    assert FirstDot(s) == |s|;
  }

  /** For instance, `Number('12')` is 12. */
  lemma TwelveExample()
    ensures NumberOf(Str("12")) == Num(12.0)
  {
    var s := "12";
    assert s[0] == '1' && s[1] == '2';
    forall j | 0 <= j < |s| ensures IsDigit(s[j]) {
    }
    assert s[0..2] == s;
    TwoDigitsValue(s, 0);
    DigitTextIsItsValue(s);
  }

  // ---------------------------------------------------------------------
  // Dates: which arguments `new Date(x)` turns into a valid Date. A text is
  // read by the Date Time String Format of ECMA-262; the instant it denotes,
  // and the time zone of a date-time without an offset, do not matter here.

  /** `n` digits at position `i`. */
  predicate DigitsAt(s: string, i: nat, n: nat)
  {
    i + n <= |s| && AllDigits(s[i..i + n])
  }

  /** Two digits at position `i` whose value lies in `lo..hi`. */
  predicate TwoDigitsIn(s: string, i: nat, lo: nat, hi: nat)
  {
    DigitsAt(s, i, 2) && lo <= DigitsValue(s[i..i + 2]) <= hi
  }

  /** Two digits at position `i` that read 00. */
  predicate ZeroAt(s: string, i: nat, n: nat)
  {
    DigitsAt(s, i, n) && DigitsValue(s[i..i + n]) == 0
  }

  /** The length of the leading year: `YYYY`, or a sign and six digits
      (`-000000` is not a year). 0 when the text does not start with one. */
  function YearLength(s: string): (r: nat)
    ensures r == 0 || r == 4 || r == 7
    ensures r <= |s|
  {
    if DigitsAt(s, 0, 4) then 4
    else if |s| > 0 && (s[0] == '+' || s[0] == '-') && DigitsAt(s, 1, 6)
            && !(s[0] == '-' && ZeroAt(s, 1, 6)) then 7
    else 0
  }

  /** Where the date part that starts with a year of length `y` ends: after
      the year, after `-MM`, or after `-MM-DD`. */
  function DateEnd(s: string, y: nat): (r: nat)
    requires y <= |s|
    ensures y <= r <= |s|
  {
    if y < |s| && s[y] == '-' && TwoDigitsIn(s, y + 1, 1, 12) then
      if y + 3 < |s| && s[y + 3] == '-' && TwoDigitsIn(s, y + 4, 1, 31) then y + 6 else y + 3
    else y
  }

  /** Where the time `HH:mm` ends: after the minutes, after `:ss`, or after
      `:ss.sss`. */
  function TimeEnd(u: string): (r: nat)
    requires |u| >= 5
    ensures r == 5 || r == 8 || r == 12
    ensures r <= |u|
  {
    if |u| >= 8 && u[5] == ':' && TwoDigitsIn(u, 6, 0, 59) then
      if |u| >= 12 && u[8] == '.' && DigitsAt(u, 9, 3) then 12 else 8
    else 5
  }

  /** `Z`, `+HH:mm`, `-HH:mm`, or no offset at all. */
  predicate IsOffset(o: string)
  {
    || o == ""
    || o == "Z"
    || (&& |o| == 6 && (o[0] == '+' || o[0] == '-')
        && TwoDigitsIn(o, 1, 0, 23) && o[3] == ':' && TwoDigitsIn(o, 4, 0, 59))
  }

  /** `HH:mm`, `HH:mm:ss` or `HH:mm:ss.sss`, then an offset; the hour 24 is
      only the end of the day, `24:00:00.000`. */
  predicate IsTimeText(u: string)
  {
    && |u| >= 5 && TwoDigitsIn(u, 0, 0, 24) && u[2] == ':' && TwoDigitsIn(u, 3, 0, 59)
    && var e := TimeEnd(u);
       && IsOffset(u[e..])
       && (DigitsValue(u[..2]) == 24 ==>
             ZeroAt(u, 3, 2) && (e >= 8 ==> ZeroAt(u, 6, 2)) && (e == 12 ==> ZeroAt(u, 9, 3)))
  }

  /** A text in the Date Time String Format: a year, optionally a month and a
      day, then optionally `T` and a time. */
  predicate IsDateText(s: string)
  {
    var y := YearLength(s);
    && y > 0
    && var d := DateEnd(s, y);
       d == |s| || (s[d] == 'T' && IsTimeText(s[d + 1..]))
  }

  /** Whether `new Date(v)` is a valid Date, so that `toISOString()` does not
      throw a RangeError: a Date is copied, a number is a time value and must
      lie within 8.64e15 ms of the epoch, a boolean is 1 or 0 ms, and a text
      must be in the Date Time String Format. */
  predicate MakesValidDate(v: Value)
  {
    match v
    case Time(_) => true
    case Num(n) => -8640000000000000.0 <= n <= 8640000000000000.0
    case Bool(_) => true
    case Str(s) => IsDateText(s)
    case _ => false                    // NaN; an array is left out; undefined
  }

  /** The value of two digits. */
  lemma TwoDigitsValue(s: string, i: nat)
    requires DigitsAt(s, i, 2)
    ensures DigitsValue(s[i..i + 2]) == (s[i] as int - '0' as int) * 10 + (s[i + 1] as int - '0' as int)
  {
    var t := s[i..i + 2];
    assert t[..1][..0] == [];
    assert AllDigits(t[..1]);
  }

  /** Two digit characters at position `i` with a value in `lo..hi`. */
  lemma TwoDigitsInByChars(s: string, i: nat, lo: nat, hi: nat)
    requires i + 2 <= |s| && IsDigit(s[i]) && IsDigit(s[i + 1])
    requires lo <= (s[i] as int - '0' as int) * 10 + (s[i + 1] as int - '0' as int) <= hi
    ensures TwoDigitsIn(s, i, lo, hi)
  {
    var t := s[i..i + 2];
    forall j | 0 <= j < 2 ensures IsDigit(t[j]) {
      assert t[j] == s[i + j];
    }
    TwoDigitsValue(s, i);
  }

  /** `YYYY-MM-DD`, with a month 01 to 12 and a day 01 to 31. */
  predicate IsCalendarDate(d: string)
  {
    && |d| == 10 && DigitsAt(d, 0, 4) && d[4] == '-' && d[7] == '-'
    && TwoDigitsIn(d, 5, 1, 12) && TwoDigitsIn(d, 8, 1, 31)
  }

  /** A calendar date is a date text. */
  lemma CalendarDateIsDateText(d: string)
    requires IsCalendarDate(d)
    ensures IsDateText(d)
  {
    assert YearLength(d) == 4;
  }

  /** A calendar date, then `T` and a time of day, is a date text. */
  lemma DateTimeIsDateText(d: string, u: string)
    requires IsCalendarDate(d) && IsTimeText(u)
    ensures IsDateText(d + "T" + u)
  {
    var s := d + "T" + u;
    assert s[0..4] == d[0..4] && s[5..7] == d[5..7] && s[8..10] == d[8..10];
    assert s[4] == '-' && s[7] == '-' && s[10] == 'T';
    assert YearLength(s) == 4;
    assert DateEnd(s, 4) == 10;
    assert s[11..] == u;
  }

  /** After a four-digit year, a month above 12 makes the text no date. */
  lemma MonthOutOfRangeIsNoDateText(s: string)
    requires |s| > 4 && DigitsAt(s, 0, 4) && s[4] == '-'
    requires DigitsAt(s, 5, 2) && DigitsValue(s[5..7]) > 12
    ensures !IsDateText(s)
  {
    assert YearLength(s) == 4;
    assert DateEnd(s, 4) == 4;
  }

  /** Four digit characters at the start are a year. */
  lemma YearByChars(s: string)
    requires |s| >= 4 && IsDigit(s[0]) && IsDigit(s[1]) && IsDigit(s[2]) && IsDigit(s[3])
    ensures DigitsAt(s, 0, 4)
  {
    var t := s[0..4];
    forall j | 0 <= j < 4 ensures IsDigit(t[j]) {
      assert t[j] == s[j];
    }
  }

  /** For instance, 2024-05-01 is a calendar date, so a date text. */
  lemma CalendarDateExample()
    ensures IsCalendarDate("2024-05-01")
    ensures IsDateText("2024-05-01")
  {
    var s := "2024-05-01";
    assert s[0] == '2' && s[1] == '0' && s[2] == '2' && s[3] == '4';
    YearByChars(s);
    assert s[5] == '0' && s[6] == '5';
    TwoDigitsInByChars(s, 5, 1, 12);
    assert s[8] == '0' && s[9] == '1';
    TwoDigitsInByChars(s, 8, 1, 31);
    CalendarDateIsDateText(s);
  }

  /** Hours and minutes with the UTC offset are a time of day. */
  lemma UtcTimeIsTimeText()
    ensures IsTimeText("10:30Z")
  {
    var u := "10:30Z";
    assert u[0] == '1' && u[1] == '0';
    TwoDigitsInByChars(u, 0, 0, 24);
    assert u[3] == '3' && u[4] == '0';
    TwoDigitsInByChars(u, 3, 0, 59);
    TwoDigitsValue(u, 0);
    assert u[0..2] == u[..2];
    assert TimeEnd(u) == 5;
    assert u[5..] == "Z";
  }

  /** For instance, 2024-05-01T10:30Z is a date text. */
  lemma UtcDateTimeExample()
    ensures IsDateText("2024-05-01T10:30Z")
  {
    CalendarDateExample();
    UtcTimeIsTimeText();
    DateTimeIsDateText("2024-05-01", "10:30Z");
    assert "2024-05-01" + "T" + "10:30Z" == "2024-05-01T10:30Z";
  }

  /** For instance, 2024-13-01 is no date text. */
  lemma MonthThirteenExample()
    ensures !IsDateText("2024-13-01")
  {
    var s := "2024-13-01";
    assert s[0] == '2' && s[1] == '0' && s[2] == '2' && s[3] == '4';
    YearByChars(s);
    assert s[5] == '1' && s[6] == '3';
    TwoDigitsInByChars(s, 5, 13, 13);
    MonthOutOfRangeIsNoDateText(s);
  }
}
