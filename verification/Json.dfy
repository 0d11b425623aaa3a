/** JSON text as Python's `json` module writes and reads it (RFC 8259, sections 2 to 7).

    Strings are sequences of Unicode scalar values. A float is represented by a literal: the text
    that `repr` gives it when it is printed, and the text it was read from when it is read. NaN and
    the infinities are values too. */
module Json {
  import opened Common
  import opened Ordering
  import opened Numerals

  /** A dict keeps its members in insertion order. */
  datatype Value =
    | Null
    | Bool(b: bool)
    | Int(n: int)
    | Float(lit: string)
    | Str(s: string)
    | Arr(items: seq<Value>)
    | Obj(members: seq<Pair<Value>>)

  /** The two separator styles in use: `json.dumps(x)` and `separators=(",", ":")`. */
  datatype Format = Spaced | Compact {
    function ItemSep(): string { if Spaced? then ", " else "," }
    function KeySep(): string { if Spaced? then ": " else ":" }
  }

  /** What Python can hold: dict keys are distinct, and a float prints as a float. */
  ghost predicate WellFormed(v: Value)
    decreases v
  {
    match v
    case Float(lit) => IsFloatText(lit)
    case Arr(items) => forall i :: 0 <= i < |items| ==> WellFormed(items[i])
    case Obj(ms) => DistinctKeys(ms) && forall i :: 0 <= i < |ms| ==> WellFormed(ms[i].value)
    case _ => true
  }

  // ---------------------------------------------------------------- numbers

  predicate IsNumberChar(c: char) {
    IsDigit(c) || c == '+' || c == '-' || c == '.' || c == 'e' || c == 'E'
  }

  function NumberRun(s: string): (r: string)
    ensures r <= s
    ensures forall c :: c in r ==> IsNumberChar(c)
  {
    if s != "" && IsNumberChar(s[0]) then [s[0]] + NumberRun(s[1..]) else ""
  }

  function DigitRun(s: string): (r: string)
    ensures r <= s && AllDigits(r)
  {
    if s != "" && IsDigit(s[0]) then [s[0]] + DigitRun(s[1..]) else ""
  }

  function Unsigned(s: string): string {
    if s != "" && s[0] == '-' then s[1..] else s
  }

  /** The integer part: one zero, or digits not starting with zero. */
  predicate IsIntPart(s: string) {
    s != "" && AllDigits(s) && (s == "0" || s[0] != '0')
  }

  predicate IsIntText(s: string) { IsIntPart(Unsigned(s)) }

  predicate IsExponent(s: string) {
    s != "" && (s[0] == 'e' || s[0] == 'E') &&
    var t := s[1..];
    var u := if t != "" && (t[0] == '+' || t[0] == '-') then t[1..] else t;
    u != "" && AllDigits(u)
  }

  /** A number with a fraction, an exponent, or both; or one of the three named constants. */
  predicate IsFloatText(s: string) {
    s in ["NaN", "Infinity", "-Infinity"] ||
    ((forall c :: c in s ==> IsNumberChar(c)) &&
     var t := Unsigned(s);
     var whole := DigitRun(t);
     var u := t[|whole|..];
     IsIntPart(whole) && u != "" &&
     (if u[0] == '.' then
        var frac := DigitRun(u[1..]);
        var w := u[1 + |frac|..];
        frac != "" && (w == "" || IsExponent(w))
      else IsExponent(u)))
  }

  function IntOf(s: string): int
    requires IsIntText(s)
  {
    if s[0] == '-' then -(DigitsValue(s[1..]) as int) else DigitsValue(s)
  }

  /** What may follow a number: the end, or a character that cannot belong to it. */
  predicate Stops(rest: string) { rest == "" || !IsNumberChar(rest[0]) }

  // ---------------------------------------------------------------- strings

  function HexDigit(n: nat): char
    requires n < 16
  {
    "0123456789abcdef"[n]
  }

  function HexValue(c: char): (r: Option<nat>)
    ensures r.Some? ==> r.value < 16
  {
    if '0' <= c <= '9' then Some(c as nat - '0' as nat)
    else if 'a' <= c <= 'f' then Some(c as nat - 'a' as nat + 10)
    else if 'A' <= c <= 'F' then Some(c as nat - 'A' as nat + 10)
    else None
  }

  /** `\uXXXX`, lower-case hex. */
  function UnicodeEscape(n: nat): string
    requires n < 0x10000
  {
    "\\u" + Hex4Text(n)
  }

  function Hex4Text(n: nat): string
    requires n < 0x10000
  {
    [HexDigit(n / 4096), HexDigit(n / 256 % 16), HexDigit(n / 16 % 16), HexDigit(n % 16)]
  }

  /** The ASCII form of one character (`ensure_ascii=True`, the default). */
  function EscapeChar(c: char): (s: string)
    ensures s != ""
  {
    if c == '"' then "\\\""
    else if c == '\\' then "\\\\"
    else if c == '\n' then "\\n"
    else if c == '\r' then "\\r"
    else if c == '\t' then "\\t"
    else if c as nat == 0x0c then "\\f"
    else if c as nat == 0x08 then "\\b"
    else if ' ' <= c <= '~' then [c]
    else if c as nat < 0x10000 then UnicodeEscape(c as nat)
    else SurrogateEscape(c as nat - 0x10000)
  }

  /** A character beyond U+FFFF, as a surrogate pair. */
  function SurrogateEscape(v: nat): string
    requires v < 0x100000
  {
    UnicodeEscape(0xD800 + v / 1024) + UnicodeEscape(0xDC00 + v % 1024)
  }

  /** The characters of a string literal and its closing quote. */
  function CharsText(s: string): string {
    if s == "" then "\"" else EscapeChar(s[0]) + CharsText(s[1..])
  }

  function StringText(s: string): string { "\"" + CharsText(s) }

  // ---------------------------------------------------------------- json.dumps

  function Dumps(v: Value, f: Format): string
    decreases v, 1
  {
    match v
    case Null => "null"
    case Bool(b) => if b then "true" else "false"
    case Int(n) => IntText(n)
    case Float(lit) => lit
    case Str(s) => StringText(s)
    case Arr(items) => if items == [] then "[]" else "[" + ElementsText(items, f)
    case Obj(ms) => if ms == [] then "{}" else "{" + MembersText(ms, f)
  }

  /** The elements of a non-empty list and its closing bracket. */
  function ElementsText(items: seq<Value>, f: Format): string
    requires items != []
    decreases items, 0
  {
    Dumps(items[0], f) + (if |items| == 1 then "]" else f.ItemSep() + ElementsText(items[1..], f))
  }

  function MembersText(ms: seq<Pair<Value>>, f: Format): string
    requires ms != []
    decreases ms, 0
  {
    StringText(ms[0].key)
    + (f.KeySep()
       + (Dumps(ms[0].value, f)
          + (if |ms| == 1 then "}" else f.ItemSep() + MembersText(ms[1..], f))))
  }

  // ---------------------------------------------------------------- json.loads

  /** A value read from the front of a text, and what is left of it. */
  datatype Parsed<+T> = Miss | Got(value: T, rest: string)

  function SkipSpace(s: string): (r: string)
    ensures |r| <= |s|
  {
    if s != "" && (s[0] == ' ' || s[0] == '\t' || s[0] == '\n' || s[0] == '\r') then SkipSpace(s[1..]) else s
  }

  function ParseHex4(s: string): (r: Parsed<nat>)
    ensures r.Got? ==> r.value < 0x10000 && |r.rest| + 4 == |s|
  {
    if |s| < 4 then Miss
    else
      match (HexValue(s[0]), HexValue(s[1]), HexValue(s[2]), HexValue(s[3]))
      case (Some(a), Some(b), Some(c), Some(d)) => Got(a * 4096 + b * 256 + c * 16 + d, s[4..])
      case _ => Miss
  }

  /** Stands for a surrogate that is half of no pair. Python's strings can hold one. */
  const REPLACEMENT: char := 0xFFFD as char

  /** After `\u`: one code unit, or two that form a surrogate pair. */
  function ParseUnicode(s: string): (r: Parsed<char>)
    ensures r.Got? ==> |r.rest| < |s|
  {
    match ParseHex4(s)
    case Miss => Miss
    case Got(n, t) =>
      if !(0xD800 <= n < 0xE000) then Got(n as char, t)
      else if n < 0xDC00 && |t| >= 2 && t[0] == '\\' && t[1] == 'u' then
        match ParseHex4(t[2..])
        case Got(m, u) =>
          if 0xDC00 <= m < 0xE000 then Got((0x10000 + (n - 0xD800) * 1024 + (m - 0xDC00)) as char, u)
          else Got(REPLACEMENT, t)
        case Miss => Miss
      else Got(REPLACEMENT, t)
  }

  /** One character of a string literal. Control characters must be escaped. */
  function ParseChar(s: string): (r: Parsed<char>)
    ensures r.Got? ==> |r.rest| < |s|
  {
    if s == "" || s[0] < ' ' then Miss
    else if s[0] != '\\' then Got(s[0], s[1..])
    else if |s| < 2 then Miss
    else
      match s[1]
      case '"' => Got('"', s[2..])
      case '\\' => Got('\\', s[2..])
      case '/' => Got('/', s[2..])
      case 'b' => Got(0x08 as char, s[2..])
      case 'f' => Got(0x0c as char, s[2..])
      case 'n' => Got('\n', s[2..])
      case 'r' => Got('\r', s[2..])
      case 't' => Got('\t', s[2..])
      case 'u' => ParseUnicode(s[2..])
      case _ => Miss
  }

  function ParseChars(s: string): (r: Parsed<string>)
    ensures r.Got? ==> |r.rest| < |s|
    decreases |s|
  {
    if s == "" then Miss
    else if s[0] == '"' then Got("", s[1..])
    else
      match ParseChar(s)
      case Miss => Miss
      case Got(c, t) =>
        match ParseChars(t)
        case Miss => Miss
        case Got(cs, u) => Got([c] + cs, u)
  }

  /** The scanner takes the longest number it can and fails later on a number character that
      follows it, since none may follow a value; so it accepts exactly the whole runs. */
  function ParseNumber(s: string): (r: Parsed<Value>)
    ensures r.Got? ==> |r.rest| < |s|
  {
    var run := NumberRun(s);
    if IsIntText(run) then Got(Int(IntOf(run)), s[|run|..])
    else if IsFloatText(run) then Got(Float(run), s[|run|..])
    else Miss
  }

  /** `dict(pairs)`: a repeated key keeps its place and takes the later value. */
  function DictOf(ps: seq<Pair<Value>>): seq<Pair<Value>> {
    if ps == [] then [] else PutPair(DictOf(ps[..|ps| - 1]), ps[|ps| - 1])
  }

  /** The literals and numbers: what starts with neither a quote nor an opening bracket. */
  function ParseAtom(s: string): (r: Parsed<Value>)
    ensures r.Got? ==> |r.rest| < |s|
  {
    if "null" <= s then Got(Null, s[4..])
    else if "true" <= s then Got(Bool(true), s[4..])
    else if "false" <= s then Got(Bool(false), s[5..])
    else if "NaN" <= s then Got(Float("NaN"), s[3..])
    else if "Infinity" <= s then Got(Float("Infinity"), s[8..])
    else if "-Infinity" <= s then Got(Float("-Infinity"), s[9..])
    else ParseNumber(s)
  }

  function ParseText(s: string): (r: Parsed<Value>)
    ensures r.Got? ==> |r.rest| < |s|
  {
    match ParseChars(s)
    case Got(cs, t) => Got(Str(cs), t)
    case Miss => Miss
  }

  function ParseValue(s: string): (r: Parsed<Value>)
    ensures r.Got? ==> |r.rest| < |s|
    decreases |s|, 0
  {
    if s == "" then Miss
    else if s[0] == '"' then ParseText(s[1..])
    else if s[0] == '{' then ParseObject(SkipSpace(s[1..]))
    else if s[0] == '[' then ParseArray(SkipSpace(s[1..]))
    else ParseAtom(s)
  }

  /** After `[` and any space. */
  function ParseArray(s: string): (r: Parsed<Value>)
    ensures r.Got? ==> |r.rest| < |s|
    decreases |s|, 2
  {
    if s != "" && s[0] == ']' then Got(Arr([]), s[1..])
    else
      match ParseElements(s)
      case Got(vs, t) => Got(Arr(vs), t)
      case Miss => Miss
  }

  /** After `{` and any space. */
  function ParseObject(s: string): (r: Parsed<Value>)
    ensures r.Got? ==> |r.rest| < |s|
    decreases |s|, 2
  {
    if s != "" && s[0] == '}' then Got(Obj([]), s[1..])
    else
      match ParseMembers(s)
      case Got(ps, t) => Got(Obj(DictOf(ps)), t)
      case Miss => Miss
  }

  function ParseElements(s: string): (r: Parsed<seq<Value>>)
    ensures r.Got? ==> |r.rest| < |s|
    decreases |s|, 1
  {
    match ParseValue(s)
    case Miss => Miss
    case Got(v, t) => MoreElements(v, SkipSpace(t))
  }

  /** After an element: the closing bracket, or a comma and the rest. */
  function MoreElements(v: Value, s: string): (r: Parsed<seq<Value>>)
    ensures r.Got? ==> |r.rest| < |s|
    decreases |s|, 3
  {
    if s == "" then Miss
    else if s[0] == ']' then Got([v], s[1..])
    else if s[0] == ',' then
      match ParseElements(SkipSpace(s[1..]))
      case Got(vs, t) => Got([v] + vs, t)
      case Miss => Miss
    else Miss
  }

  function ParseMembers(s: string): (r: Parsed<seq<Pair<Value>>>)
    ensures r.Got? ==> |r.rest| < |s|
    decreases |s|, 1
  {
    if s == "" || s[0] != '"' then Miss
    else
      match ParseChars(s[1..])
      case Miss => Miss
      case Got(k, t) => ParseColon(k, SkipSpace(t))
  }

  /** After a key: a colon and the value. */
  function ParseColon(k: string, s: string): (r: Parsed<seq<Pair<Value>>>)
    ensures r.Got? ==> |r.rest| < |s|
    decreases |s|, 3
  {
    if s == "" || s[0] != ':' then Miss
    else
      match ParseValue(SkipSpace(s[1..]))
      case Miss => Miss
      case Got(v, t) => MoreMembers(Pair(k, v), SkipSpace(t))
  }

  function MoreMembers(m: Pair<Value>, s: string): (r: Parsed<seq<Pair<Value>>>)
    ensures r.Got? ==> |r.rest| < |s|
    decreases |s|, 3
  {
    if s == "" then Miss
    else if s[0] == '}' then Got([m], s[1..])
    else if s[0] == ',' then
      match ParseMembers(SkipSpace(s[1..]))
      case Got(ms, t) => Got([m] + ms, t)
      case Miss => Miss
    else Miss
  }

  /** `json.loads(s)`; None stands for a JSONDecodeError. */
  function Loads(s: string): Option<Value> {
    match ParseValue(SkipSpace(s))
    case Got(v, rest) => if SkipSpace(rest) == "" then Some(v) else None
    case Miss => None
  }
}
