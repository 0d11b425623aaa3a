/** `json.loads` undoes `json.dumps`, for every value and both separator styles. */
module JsonRoundTrip {
  import opened Common
  import opened Ordering
  import opened Numerals
  import opened Json

  // ---------------------------------------------------------------- strings

  lemma HexRoundTrip(n: nat)
    requires n < 16
    ensures HexValue(HexDigit(n)) == Some(n)
  {
  }

  lemma Hex4Digits(a: nat, b: nat, c: nat, d: nat, rest: string)
    requires a < 16 && b < 16 && c < 16 && d < 16
    ensures ParseHex4([HexDigit(a), HexDigit(b), HexDigit(c), HexDigit(d)] + rest)
         == Got(a * 4096 + b * 256 + c * 16 + d, rest)
  {
    HexRoundTrip(a);
    HexRoundTrip(b);
    HexRoundTrip(c);
    HexRoundTrip(d);
  }

  lemma HexSplit(n: nat) returns (a: nat, b: nat, c: nat, d: nat)
    requires n < 0x10000
    ensures a < 16 && b < 16 && c < 16 && d < 16
    ensures n == a * 4096 + b * 256 + c * 16 + d
    ensures Hex4Text(n) == [HexDigit(a), HexDigit(b), HexDigit(c), HexDigit(d)]
  {
    a, b, c, d := n / 4096, n / 256 % 16, n / 16 % 16, n % 16;
    assert n == n / 16 * 16 + d;
    assert n / 16 == n / 256 * 16 + c;
    assert n / 256 == a * 16 + b;
  }

  lemma Hex4RoundTrip(n: nat, rest: string)
    requires n < 0x10000
    ensures ParseHex4(Hex4Text(n) + rest) == Got(n, rest)
  {
    var a, b, c, d := HexSplit(n);
    Hex4Digits(a, b, c, d, rest);
  }

  lemma UnicodeRoundTrip(c: char, rest: string)
    requires c as nat < 0x10000
    ensures ParseChar(UnicodeEscape(c as nat) + rest) == Got(c, rest)
  {
    var s := UnicodeEscape(c as nat) + rest;
    assert s[0] == '\\' && s[1] == 'u' && s[2..] == Hex4Text(c as nat) + rest;
    Hex4RoundTrip(c as nat, rest);
  }

  lemma PairRoundTrip(hi: nat, lo: nat, rest: string)
    requires 0xD800 <= hi < 0xDC00 <= lo < 0xE000
    ensures ParseChar(UnicodeEscape(hi) + UnicodeEscape(lo) + rest)
         == Got((0x10000 + (hi - 0xD800) * 1024 + (lo - 0xDC00)) as char, rest)
  {
    var tail := UnicodeEscape(lo) + rest;
    assert UnicodeEscape(hi) + UnicodeEscape(lo) + rest == UnicodeEscape(hi) + tail;
    EscapedUnicode(hi, tail);
    PairTail(hi, lo, Hex4Text(hi) + tail, tail, rest);
  }

  lemma EscapedUnicode(n: nat, tail: string)
    requires n < 0x10000
    ensures ParseChar(UnicodeEscape(n) + tail) == ParseUnicode(Hex4Text(n) + tail)
  {
    var s := UnicodeEscape(n) + tail;
    assert s[0] == '\\' && s[1] == 'u' && s[2..] == Hex4Text(n) + tail;
  }

  /** After the first escape of a pair. */
  lemma PairTail(hi: nat, lo: nat, s: string, tail: string, rest: string)
    requires 0xD800 <= hi < 0xDC00 <= lo < 0xE000
    requires s == Hex4Text(hi) + tail && tail == UnicodeEscape(lo) + rest
    ensures ParseUnicode(s) == Got((0x10000 + (hi - 0xD800) * 1024 + (lo - 0xDC00)) as char, rest)
  {
    Hex4RoundTrip(hi, tail);
    assert tail[0] == '\\' && tail[1] == 'u' && tail[2..] == Hex4Text(lo) + rest;
    Hex4RoundTrip(lo, rest);
    PairOf(s, hi, tail, lo, rest);
  }

  lemma PairOf(s: string, hi: nat, tail: string, lo: nat, rest: string)
    requires 0xD800 <= hi < 0xDC00 <= lo < 0xE000
    requires ParseHex4(s) == Got(hi, tail) && |tail| >= 2 && tail[0] == '\\' && tail[1] == 'u'
    requires ParseHex4(tail[2..]) == Got(lo, rest)
    ensures ParseUnicode(s) == Got((0x10000 + (hi - 0xD800) * 1024 + (lo - 0xDC00)) as char, rest)
  {
  }

  lemma SurrogateSplit(v: nat) returns (hi: nat, lo: nat)
    requires v < 0x100000
    ensures 0xD800 <= hi < 0xDC00 <= lo < 0xE000
    ensures (hi - 0xD800) * 1024 + (lo - 0xDC00) == v
    ensures SurrogateEscape(v) == UnicodeEscape(hi) + UnicodeEscape(lo)
  {
    hi, lo := 0xD800 + v / 1024, 0xDC00 + v % 1024;
  }

  /** Escapes form a prefix code: whatever follows, one character is read back. */
  lemma CharRoundTrip(c: char, rest: string)
    ensures ParseChar(EscapeChar(c) + rest) == Got(c, rest)
    ensures EscapeChar(c)[0] != '"'
  {
    if c as nat >= 0x10000 {
      var hi, lo := SurrogateSplit(c as nat - 0x10000);
      PairRoundTrip(hi, lo, rest);
    } else if EscapeChar(c) == UnicodeEscape(c as nat) {
      UnicodeRoundTrip(c, rest);
    } else {
      var e := EscapeChar(c);
      assert (e + rest)[|e|..] == rest;
    }
  }

  lemma {:induction false} CharsRoundTrip(s: string, rest: string)
    ensures ParseChars(CharsText(s) + rest) == Got(s, rest)
  {
    var t := CharsText(s) + rest;
    if s == "" {
      assert t[1..] == rest;
    } else {
      var e := EscapeChar(s[0]);
      assert t == e + (CharsText(s[1..]) + rest);
      CharRoundTrip(s[0], CharsText(s[1..]) + rest);
      CharsRoundTrip(s[1..], rest);
      assert [s[0]] + s[1..] == s;
    }
  }

  lemma StringRoundTrip(s: string, rest: string)
    ensures (StringText(s) + rest)[0] == '"'
    ensures ParseChars((StringText(s) + rest)[1..]) == Got(s, rest)
  {
    assert (StringText(s) + rest)[1..] == CharsText(s) + rest;
    CharsRoundTrip(s, rest);
  }

  // ---------------------------------------------------------------- numbers

  lemma {:induction false} NumberRunStops(s: string, rest: string)
    requires forall c :: c in s ==> IsNumberChar(c)
    requires Stops(rest)
    ensures NumberRun(s + rest) == s
  {
    if s == "" {
      assert s + rest == rest;
    } else {
      assert (s + rest)[1..] == s[1..] + rest;
      NumberRunStops(s[1..], rest);
    }
  }

  lemma IntTextShape(n: int)
    ensures IsIntText(IntText(n)) && IntOf(IntText(n)) == n
    ensures forall c :: c in IntText(n) ==> IsNumberChar(c)
    ensures IsDigit(IntText(n)[0]) || IntText(n)[0] == '-'
  {
    var m: nat := if n < 0 then -n else n;
    NatTextValue(m);
    NatTextCanonical(m);
    assert IsDigit(NatText(m)[0]);
    if n < 0 {
      assert IntText(n)[1..] == NatText(m);
      assert Unsigned(IntText(n)) == NatText(m);
    } else {
      assert Unsigned(IntText(n)) == NatText(m);
    }
  }

  /** A text that starts with a digit, or a minus and a digit, is read as a number. */
  lemma NumberAtom(t: string, rest: string)
    requires t != "" && (forall c :: c in t ==> IsNumberChar(c)) && Stops(rest)
    requires IsDigit(t[0]) || t[0] == '-'
    requires IsIntText(t) || IsFloatText(t)
    ensures ParseValue(t + rest) == ParseNumber(t + rest)
    ensures NumberRun(t + rest) == t && (t + rest)[|t|..] == rest
  {
    var s := t + rest;
    NumberRunStops(t, rest);
    assert s[0] == t[0];
    if t[0] == '-' {
      assert |t| > 1;
      assert t[1] in t && s[1] == t[1];
    }
    NumberStart(s);
  }

  /** What starts like a number is no literal. */
  lemma NumberStart(s: string)
    requires s != "" && (IsDigit(s[0]) || (s[0] == '-' && |s| > 1 && IsNumberChar(s[1])))
    ensures ParseValue(s) == ParseNumber(s)
  {
    AtomStart(s);
    NumberAtomStart(s);
  }

  lemma AtomStart(s: string)
    requires s != "" && s[0] != '"' && s[0] != '{' && s[0] != '['
    ensures ParseValue(s) == ParseAtom(s)
  {
  }

  lemma NumberAtomStart(s: string)
    requires s != "" && (IsDigit(s[0]) || (s[0] == '-' && |s| > 1 && IsNumberChar(s[1])))
    ensures ParseAtom(s) == ParseNumber(s)
  {
    NoLiteral(s);
  }

  lemma NoLiteral(s: string)
    requires s != "" && (IsDigit(s[0]) || (s[0] == '-' && |s| > 1 && IsNumberChar(s[1])))
    ensures !("null" <= s) && !("true" <= s) && !("false" <= s) && !("NaN" <= s)
    ensures !("Infinity" <= s) && !("-Infinity" <= s)
  {
    Differs("null", s, 0);
    Differs("true", s, 0);
    Differs("false", s, 0);
    Differs("NaN", s, 0);
    Differs("Infinity", s, 0);
    Differs("-Infinity", s, if s[0] == '-' then 1 else 0);
  }

  lemma Differs(p: string, s: string, i: nat)
    requires i < |p| && i < |s| && p[i] != s[i]
    ensures !(p <= s)
  {
  }

  lemma IntRoundTrip(n: int, rest: string)
    requires Stops(rest)
    ensures ParseValue(IntText(n) + rest) == Got(Int(n), rest)
  {
    IntTextShape(n);
    NumberAtom(IntText(n), rest);
  }

  lemma FloatRoundTrip(lit: string, rest: string)
    requires IsFloatText(lit) && Stops(rest)
    ensures ParseValue(lit + rest) == Got(Float(lit), rest)
  {
    if lit in ["NaN", "Infinity", "-Infinity"] {
      var s := lit + rest;
      assert s[|lit|..] == rest;
      assert lit <= s;
      assert s[0] == lit[0];
    } else {
      FloatIsNotInt(lit);
      NumberAtom(lit, rest);
    }
  }

  lemma {:induction false} DigitRunWhole(s: string)
    requires AllDigits(s)
    ensures DigitRun(s) == s
  {
    if s != "" {
      assert s[0] in s;
      DigitRunWhole(s[1..]);
    }
  }

  lemma FloatIsNotInt(lit: string)
    requires IsFloatText(lit) && lit !in ["NaN", "Infinity", "-Infinity"]
    ensures lit != "" && lit != "-" && !IsIntText(lit)
    ensures IsDigit(lit[0]) || lit[0] == '-'
  {
    var t := Unsigned(lit);
    var whole := DigitRun(t);
    assert whole[0] in whole;
    assert whole[0] == t[0];
    if AllDigits(t) {
      DigitRunWhole(t);
    }
  }

  // ---------------------------------------------------------------- values

  lemma SkipNothing(s: string)
    requires s != "" && s[0] !in " \t\n\r"
    ensures SkipSpace(s) == s
  {
  }

  lemma AfterSpace(s: string)
    requires s != "" && s[0] !in " \t\n\r"
    ensures SkipSpace(" " + s) == s
  {
    SkipNothing(s);
    assert (" " + s)[1..] == s;
  }

  lemma AfterItemSep(f: Format, s: string)
    requires s != "" && s[0] !in " \t\n\r"
    ensures SkipSpace((f.ItemSep() + s)[1..]) == s
    ensures (f.ItemSep() + s)[0] == ','
  {
    SkipNothing(s);
    AfterSpace(s);
    assert (f.ItemSep() + s)[1..] == if f.Spaced? then " " + s else s;
  }

  lemma AfterKeySep(f: Format, s: string)
    requires s != "" && s[0] !in " \t\n\r"
    ensures SkipSpace((f.KeySep() + s)[1..]) == s
    ensures (f.KeySep() + s)[0] == ':'
  {
    SkipNothing(s);
    AfterSpace(s);
    assert (f.KeySep() + s)[1..] == if f.Spaced? then " " + s else s;
  }

  /** The first character of a printed value: no space, and no closing bracket. */
  lemma FirstChar(v: Value, f: Format)
    requires WellFormed(v)
    ensures Dumps(v, f) != "" && Dumps(v, f)[0] !in " \t\n\r]}"
  {
    match v
    case Int(n) => IntTextShape(n);
    case Float(lit) =>
      if lit !in ["NaN", "Infinity", "-Infinity"] { FloatIsNotInt(lit); }
    case _ =>
  }

  lemma LiteralRoundTrip(v: Value, f: Format, rest: string)
    requires v.Null? || v.Bool?
    ensures ParseValue(Dumps(v, f) + rest) == Got(v, rest)
  {
    var t := Dumps(v, f);
    var s := t + rest;
    assert t <= s && s[|t|..] == rest;
    assert s[0] == t[0];
  }

  lemma EmptyRoundTrip(v: Value, f: Format, rest: string)
    requires v == Arr([]) || v == Obj([])
    ensures ParseValue(Dumps(v, f) + rest) == Got(v, rest)
  {
    var s := Dumps(v, f) + rest;
    assert s[1..] == Dumps(v, f)[1..] + rest;
    SkipNothing(s[1..]);
    assert s[1..][1..] == rest;
  }

  lemma {:induction false} ValueRoundTrip(v: Value, f: Format, rest: string)
    requires WellFormed(v) && Stops(rest)
    ensures ParseValue(Dumps(v, f) + rest) == Got(v, rest)
    decreases v, 1
  {
    match v
    case Null => LiteralRoundTrip(v, f, rest);
    case Bool(b) => LiteralRoundTrip(v, f, rest);
    case Int(n) => IntRoundTrip(n, rest);
    case Float(lit) => FloatRoundTrip(lit, rest);
    case Str(t) => StringRoundTrip(t, rest);
    case Arr(items) =>
      if items == [] { EmptyRoundTrip(v, f, rest); } else {
        ElementsRoundTrip(items, f, rest);
        ArrayText(items, f, rest);
      }
    case Obj(ms) =>
      if ms == [] { EmptyRoundTrip(v, f, rest); } else {
        MembersRoundTrip(ms, f, rest);
        DistinctDict(ms);
        ObjectText(ms, f, rest);
      }
  }

  lemma ArrayText(items: seq<Value>, f: Format, rest: string)
    requires items != [] && WellFormed(items[0])
    ensures ParseValue(Dumps(Arr(items), f) + rest)
         == match ParseElements(ElementsText(items, f) + rest)
            case Got(vs, t) => Got(Arr(vs), t)
            case Miss => Miss
  {
    var s := Dumps(Arr(items), f) + rest;
    var t := ElementsText(items, f) + rest;
    assert s[0] == '[' && s[1..] == t;
    FirstChar(items[0], f);
    assert t[0] == Dumps(items[0], f)[0];
    SkipNothing(t);
    assert ParseValue(s) == ParseArray(t);
  }

  lemma ObjectText(ms: seq<Pair<Value>>, f: Format, rest: string)
    requires ms != []
    ensures ParseValue(Dumps(Obj(ms), f) + rest)
         == match ParseMembers(MembersText(ms, f) + rest)
            case Got(ps, t) => Got(Obj(DictOf(ps)), t)
            case Miss => Miss
  {
    var s := Dumps(Obj(ms), f) + rest;
    var t := MembersText(ms, f) + rest;
    assert s[0] == '{' && s[1..] == t;
    assert t[0] == '"';
    SkipNothing(t);
    assert ParseValue(s) == ParseObject(t);
  }

  lemma {:induction false} ElementsRoundTrip(items: seq<Value>, f: Format, rest: string)
    requires items != [] && forall i :: 0 <= i < |items| ==> WellFormed(items[i])
    ensures ParseElements(ElementsText(items, f) + rest) == Got(items, rest)
    decreases items, 0
  {
    if |items| == 1 {
      ValueRoundTrip(items[0], f, "]" + rest);
      LastElement(items, f, rest);
    } else {
      var next := ElementsText(items[1..], f);
      var tail := f.ItemSep() + (next + rest);
      ValueRoundTrip(items[0], f, tail);
      ElementsRoundTrip(items[1..], f, rest);
      FirstElement(items, f, next, tail, rest);
      NextElements(items[0], items[1..], f, next + rest, rest);
      assert items == [items[0]] + items[1..];
    }
  }

  lemma LastElement(items: seq<Value>, f: Format, rest: string)
    requires |items| == 1 && ParseValue(Dumps(items[0], f) + ("]" + rest)) == Got(items[0], "]" + rest)
    ensures ParseElements(ElementsText(items, f) + rest) == Got(items, rest)
  {
    Regroup(Dumps(items[0], f), "]", rest);
    CloseElements(items[0], rest);
    assert items == [items[0]];
  }

  lemma FirstElement(items: seq<Value>, f: Format, next: string, tail: string, rest: string)
    requires |items| > 1 && next == ElementsText(items[1..], f) && WellFormed(items[0]) && WellFormed(items[1])
    requires tail == f.ItemSep() + (next + rest)
    requires ParseValue(Dumps(items[0], f) + tail) == Got(items[0], tail)
    ensures ParseElements(ElementsText(items, f) + rest) == MoreElements(items[0], SkipSpace(tail))
    ensures next + rest != "" && (next + rest)[0] !in " \t\n\r"
  {
    Regroup(Dumps(items[0], f), f.ItemSep() + next, rest);
    Regroup(f.ItemSep(), next, rest);
    FirstChar(items[1], f);
    assert (next + rest)[0] == Dumps(items[1], f)[0];
  }

  lemma CloseElements(v: Value, rest: string)
    ensures MoreElements(v, SkipSpace("]" + rest)) == Got([v], rest)
  {
    var s := "]" + rest;
    SkipNothing(s);
    assert s[0] == ']' && s[1..] == rest;
  }

  lemma NextElements(v: Value, vs: seq<Value>, f: Format, more: string, rest: string)
    requires more != "" && more[0] !in " \t\n\r"
    requires ParseElements(more) == Got(vs, rest)
    ensures MoreElements(v, SkipSpace(f.ItemSep() + more)) == Got([v] + vs, rest)
  {
    AfterItemSep(f, more);
    SkipNothing(f.ItemSep() + more);
  }

  lemma {:induction false} MembersRoundTrip(ms: seq<Pair<Value>>, f: Format, rest: string)
    requires ms != [] && forall i :: 0 <= i < |ms| ==> WellFormed(ms[i].value)
    ensures ParseMembers(MembersText(ms, f) + rest) == Got(ms, rest)
    decreases ms, 0
  {
    var m := ms[0];
    if |ms| == 1 {
      ValueRoundTrip(m.value, f, "}" + rest);
      LastMember(ms, f, rest);
    } else {
      var next := MembersText(ms[1..], f);
      var tail := f.ItemSep() + (next + rest);
      MembersRoundTrip(ms[1..], f, rest);
      StartsWithQuote(ms[1..], f, rest);
      ValueRoundTrip(m.value, f, tail);
      FirstMember(ms, f, next, tail, rest);
      NextMembers(m, ms[1..], f, next + rest, rest);
      assert ms == [m] + ms[1..];
    }
  }

  lemma LastMember(ms: seq<Pair<Value>>, f: Format, rest: string)
    requires |ms| == 1 && WellFormed(ms[0].value)
    requires ParseValue(Dumps(ms[0].value, f) + ("}" + rest)) == Got(ms[0].value, "}" + rest)
    ensures ParseMembers(MembersText(ms, f) + rest) == Got(ms, rest)
  {
    MembersSplit(ms, f, "}", rest);
    MemberText(ms[0], f, "}" + rest);
    CloseMembers(ms[0], rest);
    assert ms == [ms[0]];
  }

  /** With its tail readable, a member leaves the reader at the separator. */
  lemma FirstMember(ms: seq<Pair<Value>>, f: Format, next: string, tail: string, rest: string)
    requires |ms| > 1 && next == MembersText(ms[1..], f) && WellFormed(ms[0].value)
    requires tail == f.ItemSep() + (next + rest)
    requires ParseValue(Dumps(ms[0].value, f) + tail) == Got(ms[0].value, tail)
    ensures ParseMembers(MembersText(ms, f) + rest) == MoreMembers(ms[0], SkipSpace(tail))
  {
    MembersSplit(ms, f, f.ItemSep() + next, rest);
    Regroup(f.ItemSep(), next, rest);
    MemberText(ms[0], f, tail);
  }

  lemma StartsWithQuote(ms: seq<Pair<Value>>, f: Format, rest: string)
    requires ms != []
    ensures MembersText(ms, f) + rest != "" && (MembersText(ms, f) + rest)[0] == '"'
  {
    assert MembersText(ms, f)[0] == '"';
  }

  lemma MembersSplit(ms: seq<Pair<Value>>, f: Format, end: string, rest: string)
    requires ms != []
    requires end == if |ms| == 1 then "}" else f.ItemSep() + MembersText(ms[1..], f)
    ensures MembersText(ms, f) + rest
         == StringText(ms[0].key) + (f.KeySep() + (Dumps(ms[0].value, f) + (end + rest)))
  {
    var k, s, v := StringText(ms[0].key), f.KeySep(), Dumps(ms[0].value, f);
    Regroup(k, s + (v + end), rest);
    Regroup(s, v + end, rest);
    Regroup(v, end, rest);
  }

  lemma CloseMembers(m: Pair<Value>, rest: string)
    ensures MoreMembers(m, SkipSpace("}" + rest)) == Got([m], rest)
  {
    var s := "}" + rest;
    SkipNothing(s);
    assert s[0] == '}' && s[1..] == rest;
  }

  lemma NextMembers(m: Pair<Value>, ms: seq<Pair<Value>>, f: Format, more: string, rest: string)
    requires more != "" && more[0] !in " \t\n\r"
    requires ParseMembers(more) == Got(ms, rest)
    ensures MoreMembers(m, SkipSpace(f.ItemSep() + more)) == Got([m] + ms, rest)
  {
    AfterItemSep(f, more);
    SkipNothing(f.ItemSep() + more);
  }

  /** Reading one member leaves the reader after its value. */
  lemma MemberText(m: Pair<Value>, f: Format, tail: string)
    requires WellFormed(m.value)
    requires ParseValue(Dumps(m.value, f) + tail) == Got(m.value, tail)
    ensures ParseMembers(StringText(m.key) + (f.KeySep() + (Dumps(m.value, f) + tail)))
         == MoreMembers(m, SkipSpace(tail))
  {
    var body := Dumps(m.value, f) + tail;
    var colon := f.KeySep() + body;
    StringRoundTrip(m.key, colon);
    FirstChar(m.value, f);
    assert body[0] == Dumps(m.value, f)[0];
    ColonText(m.key, m.value, f, body, tail);
    AfterKeySep(f, body);
    SkipNothing(colon);
  }

  lemma ColonText(k: string, v: Value, f: Format, body: string, tail: string)
    requires body != "" && body[0] !in " \t\n\r"
    requires ParseValue(body) == Got(v, tail)
    ensures ParseColon(k, f.KeySep() + body) == MoreMembers(Pair(k, v), SkipSpace(tail))
  {
    AfterKeySep(f, body);
  }

  lemma {:induction false} PutNewMember(ms: seq<Pair<Value>>, m: Pair<Value>)
    requires forall i :: 0 <= i < |ms| ==> ms[i].key != m.key
    ensures PutPair(ms, m) == ms + [m]
  {
    if ms != [] {
      PutNewMember(ms[1..], m);
      assert ms + [m] == [ms[0]] + (ms[1..] + [m]);
    }
  }

  lemma {:induction false} DistinctDict(ms: seq<Pair<Value>>)
    requires DistinctKeys(ms)
    ensures DictOf(ms) == ms
  {
    if ms != [] {
      var front := ms[..|ms| - 1];
      DistinctDict(front);
      PutNewMember(front, ms[|ms| - 1]);
      assert front + [ms[|ms| - 1]] == ms;
    }
  }

  /** Reading a printed value gives it back, whichever separators were used. */
  lemma LoadsDumps(v: Value, f: Format)
    requires WellFormed(v)
    ensures Loads(Dumps(v, f)) == Some(v)
  {
    FirstChar(v, f);
    SkipNothing(Dumps(v, f));
    ValueRoundTrip(v, f, "");
    assert Dumps(v, f) + "" == Dumps(v, f);
  }

  /** Distinct values print differently. */
  lemma DumpsInjective(a: Value, b: Value, f: Format)
    requires WellFormed(a) && WellFormed(b)
    ensures Dumps(a, f) == Dumps(b, f) <==> a == b
  {
    LoadsDumps(a, f);
    LoadsDumps(b, f);
  }
}
