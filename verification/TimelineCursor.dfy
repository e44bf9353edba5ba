/**
 * The cursor of the opportunity timeline: an object with the last key of a page, as JSON in base64url.  The JSON
 * functions of the platform are parameters; the encoding, the date format and the checks are modelled here.
 */
module TimelineCursor {
  import opened Common
  import opened Calendar

  type Byte = b: nat | b < 256

  datatype Key = Key(id: string, at: Instant)

  const DAY := 86400000
  const MAX_CURSOR_LENGTH := 512

  // ------------------------------------------------------------------------------------------- dates

  datatype Fields = Fields(year: int, month: int, date: int, hour: int, minute: int, second: int, milli: int)

  function FieldsOf(t: Instant): Fields {
    Fields(YearOf(t.day), MonthOf(t.day) % 12 + 1, DateOf(t.day),
           t.time / 3600000, t.time / 60000 % 60, t.time / 1000 % 60, t.time % 1000)
  }

  predicate ValidFields(f: Fields) {
    && 1 <= f.month <= 12 && 1 <= f.date <= MonthLength(12 * f.year + f.month - 1)
    && 0 <= f.hour < 24 && 0 <= f.minute < 60 && 0 <= f.second < 60 && 0 <= f.milli < 1000
  }

  function InstantOf(f: Fields): Instant
    requires ValidFields(f)
  {
    Instant(FirstDay(12 * f.year + f.month - 1) + f.date - 1, ((f.hour * 60 + f.minute) * 60 + f.second) * 1000 + f.milli)
  }

  lemma FieldsBack(t: Instant)
    requires t.time < DAY
    ensures ValidFields(FieldsOf(t)) && InstantOf(FieldsOf(t)) == t
  {
    var month := MonthOf(t.day);
    assert 12 * (month / 12) + (month % 12 + 1) - 1 == month;
    TimeBack(t.time);
  }

  lemma TimeBack(time: nat)
    requires time < DAY
    ensures 0 <= time / 3600000 < 24
    ensures ((time / 3600000 * 60 + time / 60000 % 60) * 60 + time / 1000 % 60) * 1000 + time % 1000 == time
  {
  }

  function Digit(n: int): char {
    var d := n % 10;
    if d == 0 then '0' else if d == 1 then '1' else if d == 2 then '2' else if d == 3 then '3' else if d == 4 then '4'
    else if d == 5 then '5' else if d == 6 then '6' else if d == 7 then '7' else if d == 8 then '8' else '9'
  }

  predicate IsDigit(c: char) { '0' <= c <= '9' }

  function DigitValue(c: char): int
    requires IsDigit(c)
  {
    c as int - '0' as int
  }

  lemma DigitBack(n: int)
    ensures IsDigit(Digit(n)) && DigitValue(Digit(n)) == n % 10
  {
  }

  /** Character i of YYYY-MM-DDTHH:mm:ss.sssZ. */
  function IsoChar(f: Fields, i: int): char {
    if i == 0 then Digit(f.year / 1000) else if i == 1 then Digit(f.year / 100)
    else if i == 2 then Digit(f.year / 10) else if i == 3 then Digit(f.year)
    else if i == 4 || i == 7 then '-'
    else if i == 5 then Digit(f.month / 10) else if i == 6 then Digit(f.month)
    else if i == 8 then Digit(f.date / 10) else if i == 9 then Digit(f.date)
    else if i == 10 then 'T'
    else if i == 11 then Digit(f.hour / 10) else if i == 12 then Digit(f.hour)
    else if i == 13 || i == 16 then ':'
    else if i == 14 then Digit(f.minute / 10) else if i == 15 then Digit(f.minute)
    else if i == 17 then Digit(f.second / 10) else if i == 18 then Digit(f.second)
    else if i == 19 then '.'
    else if i == 20 then Digit(f.milli / 100) else if i == 21 then Digit(f.milli / 10) else if i == 22 then Digit(f.milli)
    else 'Z'
  }

  /** Character i of the form for other years: a sign, six digits, and the same from the month on. */
  function ExpandedIsoChar(f: Fields, i: int): char {
    var year := if f.year < 0 then -f.year else f.year;
    if i == 0 then (if f.year < 0 then '-' else '+')
    else if i == 1 then Digit(year / 100000) else if i == 2 then Digit(year / 10000) else if i == 3 then Digit(year / 1000)
    else if i == 4 then Digit(year / 100) else if i == 5 then Digit(year / 10) else if i == 6 then Digit(year)
    else IsoChar(f, i - 3)
  }

  /** Date.prototype.toISOString (ECMA-262, section 21.4.1.32). */
  function ToIso(t: Instant): string {
    var f := FieldsOf(t);
    if 0 <= f.year <= 9999 then seq(24, i => IsoChar(f, i)) else seq(27, i => ExpandedIsoChar(f, i))
  }

  predicate IsoCharShape(i: int, c: char) {
    if i == 4 || i == 7 then c == '-'
    else if i == 10 then c == 'T'
    else if i == 13 || i == 16 then c == ':'
    else if i == 19 then c == '.'
    else if i == 23 then c == 'Z'
    else IsDigit(c)
  }

  predicate IsoShape(s: string) {
    |s| == 24 && forall i | 0 <= i < 24 :: IsoCharShape(i, s[i])
  }

  function Two(s: string, i: nat): int
    requires i + 1 < |s| && IsDigit(s[i]) && IsDigit(s[i + 1])
  {
    10 * DigitValue(s[i]) + DigitValue(s[i + 1])
  }

  function IsoFields(s: string): Fields
    requires IsoShape(s)
  {
    Fields(100 * Two(s, 0) + Two(s, 2), Two(s, 5), Two(s, 8), Two(s, 11), Two(s, 14), Two(s, 17), 10 * Two(s, 20) + DigitValue(s[22]))
  }

  /** The date of a string of that shape; a day or an hour out of its range has no canonical form and is none. */
  function ParseIso(s: string): Option<Instant>
    requires IsoShape(s)
  {
    if ValidFields(IsoFields(s)) then Some(InstantOf(IsoFields(s))) else None
  }

  lemma YearBack(n: int)
    requires 0 <= n <= 9999
    ensures 100 * (10 * (n / 1000 % 10) + n / 100 % 10) + 10 * (n / 10 % 10) + n % 10 == n
  {
    assert n / 100 / 10 == n / 1000 && n / 10 / 10 == n / 100;
  }

  lemma MilliBack(n: int)
    requires 0 <= n < 1000
    ensures 10 * (10 * (n / 100 % 10) + n / 10 % 10) + n % 10 == n
  {
  }

  lemma RenderedShape(f: Fields, s: string)
    requires |s| == 24 && forall i :: 0 <= i < 24 ==> s[i] == IsoChar(f, i)
    ensures IsoShape(s)
  {
  }

  lemma TwoRendered(s: string, i: nat, n: int)
    requires i + 1 < |s| && 0 <= n < 100 && s[i] == Digit(n / 10) && s[i + 1] == Digit(n)
    ensures IsDigit(s[i]) && IsDigit(s[i + 1]) && Two(s, i) == n
  {
  }

  lemma RenderedFields(f: Fields, s: string)
    requires |s| == 24 && forall i :: 0 <= i < 24 ==> s[i] == IsoChar(f, i)
    requires ValidFields(f) && 0 <= f.year <= 9999
    ensures IsoShape(s) && IsoFields(s) == f
  {
    RenderedShape(f, s);
    TwoRendered(s, 5, f.month);
    TwoRendered(s, 8, f.date);
    TwoRendered(s, 11, f.hour);
    TwoRendered(s, 14, f.minute);
    TwoRendered(s, 17, f.second);
    RenderedYear(f.year, s);
    RenderedMilli(f.milli, s);
  }

  lemma RenderedYear(n: int, s: string)
    requires 0 <= n <= 9999 && |s| == 24
    requires s[0] == Digit(n / 1000) && s[1] == Digit(n / 100) && s[2] == Digit(n / 10) && s[3] == Digit(n)
    ensures IsDigit(s[0]) && IsDigit(s[1]) && IsDigit(s[2]) && IsDigit(s[3]) && 100 * Two(s, 0) + Two(s, 2) == n
  {
    DigitBack(n / 1000);
    DigitBack(n / 100);
    DigitBack(n / 10);
    DigitBack(n);
    YearBack(n);
  }

  lemma RenderedMilli(n: int, s: string)
    requires 0 <= n < 1000 && |s| == 24
    requires s[20] == Digit(n / 100) && s[21] == Digit(n / 10) && s[22] == Digit(n)
    ensures IsDigit(s[20]) && IsDigit(s[21]) && IsDigit(s[22]) && 10 * Two(s, 20) + DigitValue(s[22]) == n
  {
    DigitBack(n / 100);
    DigitBack(n / 10);
    DigitBack(n);
    MilliBack(n);
  }

  /** A date has the four-digit form exactly in the years 0 to 9999, and is then read back from it. */
  lemma IsoRoundTrip(t: Instant)
    requires t.time < DAY
    ensures IsoShape(ToIso(t)) <==> 0 <= YearOf(t.day) <= 9999
    ensures 0 <= YearOf(t.day) <= 9999 ==> ParseIso(ToIso(t)) == Some(t)
  {
    FieldsBack(t);
    if 0 <= YearOf(t.day) <= 9999 {
      RenderedFields(FieldsOf(t), ToIso(t));
    }
  }

  // --------------------------------------------------------------------------------------- base64url

  predicate UrlSafe(c: char) {
    'A' <= c <= 'Z' || 'a' <= c <= 'z' || '0' <= c <= '9' || c == '-' || c == '_'
  }

  function SextetChar(n: nat): char
    requires n < 64
  {
    if n < 26 then ('A' as int + n) as char
    else if n < 52 then ('a' as int + n - 26) as char
    else if n < 62 then ('0' as int + n - 52) as char
    else if n == 62 then '-' else '_'
  }

  function Sextet(c: char): (n: nat)
    requires UrlSafe(c)
    ensures n < 64
  {
    if 'A' <= c <= 'Z' then c as int - 'A' as int
    else if 'a' <= c <= 'z' then c as int - 'a' as int + 26
    else if '0' <= c <= '9' then c as int - '0' as int + 52
    else if c == '-' then 62 else 63
  }

  lemma SextetBack(n: nat)
    requires n < 64
    ensures UrlSafe(SextetChar(n)) && Sextet(SextetChar(n)) == n
  {
  }

  predicate AllUrlSafe(s: string) {
    forall i | 0 <= i < |s| :: UrlSafe(s[i])
  }

  /** The four characters of three bytes, and the three bytes of four characters. */
  function Group(x: Byte, y: Byte, z: Byte): (s: string)
    ensures |s| == 4 && AllUrlSafe(s)
  {
    [SextetChar(x / 4), SextetChar(x % 4 * 16 + y / 16), SextetChar(y % 16 * 4 + z / 64), SextetChar(z % 64)]
  }

  function Ungroup(s: string): seq<Byte>
    requires |s| == 4 && AllUrlSafe(s)
  {
    [Sextet(s[0]) * 4 + Sextet(s[1]) / 16, Sextet(s[1]) % 16 * 16 + Sextet(s[2]) / 4, Sextet(s[2]) % 4 * 64 + Sextet(s[3])]
  }

  /** Base64 with the URL-safe alphabet and no padding (RFC 4648, section 5). */
  function ToBase64Url(b: seq<Byte>): (s: string)
    ensures |s| == |b| / 3 * 4 + if |b| % 3 == 0 then 0 else |b| % 3 + 1
    ensures AllUrlSafe(s)
  {
    if |b| == 0 then []
    else if |b| == 1 then Group(b[0], 0, 0)[..2]
    else if |b| == 2 then Group(b[0], b[1], 0)[..3]
    else Group(b[0], b[1], b[2]) + ToBase64Url(b[3..])
  }

  /** A last group of two or three characters gives one or two bytes; a single character gives none. */
  function FromBase64Url(s: string): seq<Byte>
    requires AllUrlSafe(s)
  {
    if |s| < 2 then []
    else if |s| == 2 then Ungroup(s + "AA")[..1]
    else if |s| == 3 then Ungroup(s + "A")[..2]
    else Ungroup(s[..4]) + FromBase64Url(s[4..])
  }

  lemma GroupArithmetic(x: Byte, y: Byte, z: Byte)
    ensures x / 4 * 4 + (x % 4 * 16 + y / 16) / 16 == x
    ensures (x % 4 * 16 + y / 16) % 16 * 16 + (y % 16 * 4 + z / 64) / 4 == y
    ensures (y % 16 * 4 + z / 64) % 4 * 64 + z % 64 == z
  {
  }

  lemma GroupBack(x: Byte, y: Byte, z: Byte)
    ensures Ungroup(Group(x, y, z)) == [x, y, z]
  {
    SextetBack(x / 4);
    SextetBack(x % 4 * 16 + y / 16);
    SextetBack(y % 16 * 4 + z / 64);
    SextetBack(z % 64);
    GroupArithmetic(x, y, z);
  }

  lemma FirstGroup(g: string, rest: string)
    requires |g| == 4 && AllUrlSafe(g) && AllUrlSafe(rest)
    ensures AllUrlSafe(g + rest) && FromBase64Url(g + rest) == Ungroup(g) + FromBase64Url(rest)
  {
  }

  /** A short last group is the full group of its bytes and zeros, cut. */
  lemma LastGroup(x: Byte, y: Byte)
    ensures Group(x, 0, 0)[..2] + "AA" == Group(x, 0, 0)
    ensures Group(x, y, 0)[..3] + "A" == Group(x, y, 0)
  {
  }

  lemma OneByteBack(x: Byte)
    ensures FromBase64Url(Group(x, 0, 0)[..2]) == [x]
  {
  }

  lemma TwoBytesBack(x: Byte, y: Byte)
    ensures FromBase64Url(Group(x, y, 0)[..3]) == [x, y]
  {
    LastGroup(x, y);
    GroupBack(x, y, 0);
  }

  lemma ThreeBytesBack(x: Byte, y: Byte, z: Byte, rest: string)
    requires AllUrlSafe(rest)
    ensures AllUrlSafe(Group(x, y, z) + rest) && FromBase64Url(Group(x, y, z) + rest) == [x, y, z] + FromBase64Url(rest)
  {
    GroupBack(x, y, z);
    FirstGroup(Group(x, y, z), rest);
  }

  lemma LongBack(b: seq<Byte>, rest: string)
    requires |b| > 2 && AllUrlSafe(rest) && FromBase64Url(rest) == b[3..]
    ensures AllUrlSafe(Group(b[0], b[1], b[2]) + rest) && FromBase64Url(Group(b[0], b[1], b[2]) + rest) == b
  {
    ThreeBytesBack(b[0], b[1], b[2], rest);
    assert b == [b[0], b[1], b[2]] + b[3..];
  }

  lemma ShortBack(b: seq<Byte>)
    requires |b| <= 2
    ensures FromBase64Url(ToBase64Url(b)) == b
  {
    if |b| == 1 {
      OneByteBack(b[0]);
    } else if |b| == 2 {
      TwoBytesBack(b[0], b[1]);
    }
  }

  lemma {:induction false} Base64RoundTrip(b: seq<Byte>)
    ensures FromBase64Url(ToBase64Url(b)) == b
  {
    if |b| > 2 {
      Base64RoundTrip(b[3..]);
      LongBack(b, ToBase64Url(b[3..]));
    } else {
      ShortBack(b);
    }
  }

  // ------------------------------------------------------------------------------------------ cursor

  /** A parsed JSON text; arrays and the other literals have none of the fields a cursor needs. */
  datatype Json = JObject(fields: map<string, Json>) | JString(text: string) | JNumber(number: real) | JOther

  type Stringify = Json -> seq<Byte>

  /** None where JSON.parse throws. */
  type Parse = seq<Byte> -> Option<Json>

  const SOURCES := ["stage", "activity", "visit", "reservation", "proposal", "sale"]

  predicate RowId(s: string) {
    s != [] && AllUrlSafe(s)
  }

  /** The regular expression of an event id: a source, a colon and a row id. */
  predicate IdShape(id: string) {
    exists k | 0 <= k < |SOURCES| :: SOURCES[k] + ":" <= id && RowId(id[|SOURCES[k]| + 1..])
  }

  function CursorValue(opportunity: string, key: Key): Json {
    JObject(map["v" := JNumber(1.0), "opportunityId" := JString(opportunity), "id" := JString(key.id),
                "occurredAt" := JString(ToIso(key.at))])
  }

  function EncodeCursor(opportunity: string, key: Key, stringify: Stringify): string {
    ToBase64Url(stringify(CursorValue(opportunity, key)))
  }

  function Field(value: Json, name: string): Option<Json> {
    if value.JObject? && name in value.fields then Some(value.fields[name]) else None
  }

  /** The checks on a parsed cursor. */
  function CheckCursor(value: Json, opportunity: string): Outcome<Key> {
    var id, at := Field(value, "id"), Field(value, "occurredAt");
    if Field(value, "v") != Some(JNumber(1.0)) then Err(BadRequest)
    else if Field(value, "opportunityId") != Some(JString(opportunity)) then Err(BadRequest)
    else if id.None? || !id.value.JString? || !IdShape(id.value.text) then Err(BadRequest)
    else if at.None? || !at.value.JString? || !IsoShape(at.value.text) then Err(BadRequest)
    else
      var t := ParseIso(at.value.text);
      if t.None? || ToIso(t.value) != at.value.text then Err(BadRequest)
      else Ok(Key(id.value.text, t.value))
  }

  function DecodeCursor(encoded: Option<string>, opportunity: string, parse: Parse): Outcome<Option<Key>> {
    if encoded.None? || encoded.value == [] then Ok(None)
    else if |encoded.value| > MAX_CURSOR_LENGTH || !AllUrlSafe(encoded.value) then Err(BadRequest)
    else
      match parse(FromBase64Url(encoded.value))
      case None => Err(BadRequest)
      case Some(value) =>
        match CheckCursor(value, opportunity)
        case Err(e) => Err(e)
        case Ok(key) => Ok(Some(key))
  }

  /** A key whose cursor comes back: a well-formed id, a year of four digits, and at most 384 bytes of JSON. */
  predicate CursorFits(opportunity: string, key: Key, stringify: Stringify) {
    && IdShape(key.id)
    && 0 <= YearOf(key.at.day) <= 9999
    && |stringify(CursorValue(opportunity, key))| <= 384
  }

  lemma CheckExactly(opportunity: string, other: string, key: Key)
    requires key.at.time < DAY
    ensures CheckCursor(CursorValue(opportunity, key), other).Ok?
       <==> other == opportunity && IdShape(key.id) && 0 <= YearOf(key.at.day) <= 9999
    ensures CheckCursor(CursorValue(opportunity, key), other).Ok? ==> CheckCursor(CursorValue(opportunity, key), other).value == key
  {
    IsoRoundTrip(key.at);
    var value := CursorValue(opportunity, key);
    assert Field(value, "v") == Some(JNumber(1.0));
    assert Field(value, "opportunityId") == Some(JString(opportunity));
    assert Field(value, "id") == Some(JString(key.id));
    assert Field(value, "occurredAt") == Some(JString(ToIso(key.at)));
  }

  /**
   * Decoding an encoded cursor returns its key for its own opportunity exactly when the key fits, and nothing but an
   * exception for any other opportunity, provided JSON text is read back as the value it was written from.
   */
  lemma CursorRoundTrip(opportunity: string, other: string, key: Key, stringify: Stringify, parse: Parse)
    requires key.at.time < DAY
    requires var value := CursorValue(opportunity, key); stringify(value) != [] && parse(stringify(value)) == Some(value)
    ensures DecodeCursor(Some(EncodeCursor(opportunity, key, stringify)), opportunity, parse) == Ok(Some(key))
       <==> CursorFits(opportunity, key, stringify)
    ensures other != opportunity ==> DecodeCursor(Some(EncodeCursor(opportunity, key, stringify)), other, parse).Err?
  {
    var bytes := stringify(CursorValue(opportunity, key));
    Base64RoundTrip(bytes);
    CheckExactly(opportunity, opportunity, key);
    CheckExactly(opportunity, other, key);
  }

  /** Whatever text is accepted, the key it yields is one a page could have ended with. */
  lemma AcceptedCursorIsCanonical(encoded: Option<string>, opportunity: string, parse: Parse)
    requires DecodeCursor(encoded, opportunity, parse).Ok? && DecodeCursor(encoded, opportunity, parse).value.Some?
    ensures var key := DecodeCursor(encoded, opportunity, parse).value.value;
            IdShape(key.id) && 0 <= YearOf(key.at.day) <= 9999 && key.at.time < DAY
  {
    var value := parse(FromBase64Url(encoded.value)).value;
    var at := Field(value, "occurredAt").value.text;
    var t := ParseIso(at).value;
    TimeOf(IsoFields(at));
    IsoRoundTrip(t);
  }

  lemma TimeOf(f: Fields)
    requires ValidFields(f)
    ensures InstantOf(f).time < DAY
  {
  }
}
