/** `fnmatch`: which names a pattern matches, and when a prefix of a pattern stands for itself.

    The characters a bracketed class stands for are an oracle. */
module Globs {
  import opened Common

  datatype Token = Lit(c: char) | Any | Star | Class(stuff: string)

  function FindClose(s: string, j: nat): (r: Option<nat>)
    ensures r.Some? ==> j <= r.value < |s| && s[r.value] == ']'
    decreases |s| - j
  {
    if j >= |s| then None else if s[j] == ']' then Some(j) else FindClose(s, j + 1)
  }

  /** Where the class begins that was opened before `s`: a leading `!`, and a `]` right after the
      opening, do not close it. */
  function ClassBody(s: string): nat {
    var j := if s != "" && s[0] == '!' then 1 else 0;
    if j < |s| && s[j] == ']' then j + 1 else j
  }

  /** An opening bracket without a closing one is a bracket. */
  function Tokens(pattern: string): (r: seq<Token>)
    ensures |r| <= |pattern|
    decreases |pattern|
  {
    if pattern == "" then []
    else
      match pattern[0]
      case '*' => [Star] + Tokens(pattern[1..])
      case '?' => [Any] + Tokens(pattern[1..])
      case '[' =>
        (match FindClose(pattern[1..], ClassBody(pattern[1..]))
         case Some(j) => [Class(pattern[1..j + 1])] + Tokens(pattern[j + 2..])
         case None => [Lit('[')] + Tokens(pattern[1..]))
      case c => [Lit(c)] + Tokens(pattern[1..])
  }

  predicate Fits(tokens: seq<Token>, name: string, inClass: (string, char) -> bool)
    decreases |tokens|, |name|
  {
    if tokens == [] then name == ""
    else
      match tokens[0]
      case Lit(c) => name != "" && name[0] == c && Fits(tokens[1..], name[1..], inClass)
      case Any => name != "" && Fits(tokens[1..], name[1..], inClass)
      case Class(stuff) => name != "" && inClass(stuff, name[0]) && Fits(tokens[1..], name[1..], inClass)
      case Star => Fits(tokens[1..], name, inClass) || (name != "" && Fits(tokens, name[1..], inClass))
  }

  /** `fnmatch.fnmatch(name, pattern)` where file names are case-sensitive. */
  predicate Matches(name: string, pattern: string, inClass: (string, char) -> bool) {
    Fits(Tokens(pattern), name, inClass)
  }

  /** No character that can have a meaning of its own. */
  predicate Literal(s: string) { '*' !in s && '?' !in s && '[' !in s }

  // ---------------------------------------------------------------- literal prefixes

  lemma LiteralHead(c: char, rest: string)
    requires c != '*' && c != '?' && c != '['
    ensures Tokens([c] + rest) == [Lit(c)] + Tokens(rest)
  {
    assert ([c] + rest)[1..] == rest;
  }

  /** A literal prefix matches itself and leaves the rest to the rest of the pattern. */
  lemma {:induction false} LiteralPrefix(prefix: string, q: string, name: string, inClass: (string, char) -> bool)
    requires Literal(prefix)
    ensures Matches(name, prefix + q, inClass) <==> prefix <= name && Matches(name[|prefix|..], q, inClass)
  {
    if prefix == "" {
      assert prefix + q == q;
    } else {
      var c, rest := prefix[0], prefix[1..];
      assert prefix == [c] + rest && prefix + q == [c] + (rest + q);
      LiteralHead(c, rest + q);
      assert ([Lit(c)] + Tokens(rest + q))[1..] == Tokens(rest + q);
      if name != "" {
        LiteralPrefix(rest, q, name[1..], inClass);
        assert name == [name[0]] + name[1..];
        assert rest <= name[1..] ==> name[1..][|rest|..] == name[|prefix|..];
      }
    }
  }

  // ---------------------------------------------------------------- other prefixes

  predicate HasStar(tokens: seq<Token>) { Star in tokens }

  predicate HasClass(tokens: seq<Token>) { exists i :: 0 <= i < |tokens| && tokens[i].Class? }

  lemma Uncons(tokens: seq<Token>)
    requires tokens != []
    ensures HasStar(tokens) <==> tokens[0].Star? || HasStar(tokens[1..])
    ensures HasClass(tokens) <==> tokens[0].Class? || HasClass(tokens[1..])
    ensures Any in tokens <==> tokens[0].Any? || Any in tokens[1..]
  {
    assert tokens == [tokens[0]] + tokens[1..];
    assert forall i :: 0 <= i < |tokens[1..]| ==> tokens[1..][i] == tokens[i + 1];
    if HasClass(tokens) && !tokens[0].Class? {
      var i :| 0 <= i < |tokens| && tokens[i].Class?;
      assert tokens[1..][i - 1].Class?;
    }
  }

  /** A star lets a longer name through. */
  lemma {:induction false} Longer(tokens: seq<Token>, name: string, inClass: (string, char) -> bool) returns (longer: string)
    requires HasStar(tokens) && Fits(tokens, name, inClass)
    ensures |longer| == |name| + 1 && Fits(tokens, longer, inClass)
    decreases |tokens|, |name|
  {
    Uncons(tokens);
    if tokens[0].Star? {
      longer := "x" + name;
      assert longer[1..] == name;
    } else {
      var rest := Longer(tokens[1..], name[1..], inClass);
      longer := [name[0]] + rest;
      assert longer[1..] == rest;
    }
  }

  /** Without a star each token takes one character. */
  lemma {:induction false} FixedLength(tokens: seq<Token>, name: string, inClass: (string, char) -> bool)
    requires !HasStar(tokens) && Fits(tokens, name, inClass)
    ensures |name| == |tokens|
    decreases |tokens|
  {
    if tokens != [] {
      Uncons(tokens);
      FixedLength(tokens[1..], name[1..], inClass);
    }
  }

  /** A question mark lets another name through. */
  lemma {:induction false} Other(tokens: seq<Token>, name: string, inClass: (string, char) -> bool) returns (other: string)
    requires !HasStar(tokens) && Any in tokens && Fits(tokens, name, inClass)
    ensures other != name && Fits(tokens, other, inClass)
    decreases |tokens|
  {
    Uncons(tokens);
    if tokens[0].Any? {
      other := [if name[0] == 'x' then 'y' else 'x'] + name[1..];
      assert other[1..] == name[1..] && other[0] != name[0];
    } else {
      var rest := Other(tokens[1..], name[1..], inClass);
      other := [name[0]] + rest;
      assert other[1..] == rest;
    }
  }

  /** A class is shorter than its text. */
  lemma {:induction false} ClassShortens(pattern: string)
    requires HasClass(Tokens(pattern))
    ensures |Tokens(pattern)| < |pattern|
    decreases |pattern|
  {
    var ts := Tokens(pattern);
    Uncons(ts);
    if !ts[0].Class? {
      assert ts[1..] == Tokens(pattern[1..]);
      ClassShortens(pattern[1..]);
    }
  }

  predicate AllLit(tokens: seq<Token>) { forall i :: 0 <= i < |tokens| ==> tokens[i].Lit? }

  /** A pattern with anything but literals does not match exactly its own text. */
  lemma NotJustItself(pattern: string, inClass: (string, char) -> bool) returns (name: string)
    requires !AllLit(Tokens(pattern))
    ensures Matches(name, pattern, inClass) <==> name != pattern
  {
    var ts := Tokens(pattern);
    if !Fits(ts, pattern, inClass) {
      name := pattern;
    } else if HasStar(ts) {
      name := Longer(ts, pattern, inClass);
    } else {
      FixedLength(ts, pattern, inClass);
      if HasClass(ts) { ClassShortens(pattern); }
      var i :| 0 <= i < |ts| && !ts[i].Lit?;
      assert ts[i] in ts;
      name := Other(ts, pattern, inClass);
    }
  }

  lemma {:induction false} CloseFound(s: string, j: nat)
    requires j <= |s|
    ensures FindClose(s + "]", j).Some?
    decreases |s| - j
  {
    if j < |s| && s[j] != ']' { CloseFound(s, j + 1); }
  }

  lemma ClassToken(rest: string, pattern: string)
    requires rest != "" && rest[|rest| - 1] == ':'
    requires pattern != "" && pattern[0] == '[' && pattern[1..] == rest + "]"
    ensures !AllLit(Tokens(pattern))
  {
    assert ClassBody(rest + "]") <= |rest|;
    CloseFound(rest, ClassBody(rest + "]"));
    assert Tokens(pattern)[0].Class?;
  }

  lemma LaterToken(c: char, rest: string, pattern: string)
    requires c != '*' && c != '?' && c != '['
    requires pattern == [c] + rest && !AllLit(Tokens(rest))
    ensures !AllLit(Tokens(pattern))
  {
    LiteralHead(c, rest);
    var ts := Tokens(rest);
    var i :| 0 <= i < |ts| && !ts[i].Lit?;
    assert ([Lit(c)] + ts)[i + 1] == ts[i];
  }

  /** A special character is special, in a prefix that ends with a colon and a pattern that goes on
      with a closing bracket. */
  lemma {:induction false} SpecialToken(prefix: string)
    requires !Literal(prefix) && prefix[|prefix| - 1] == ':'
    ensures !AllLit(Tokens(prefix + "]"))
    decreases |prefix|
  {
    var c, rest := prefix[0], prefix[1..];
    assert prefix == [c] + rest && (prefix + "]")[1..] == rest + "]";
    if c == '*' {
      assert Tokens(prefix + "]")[0] == Star;
    } else if c == '?' {
      assert Tokens(prefix + "]")[0] == Any;
    } else if c == '[' {
      ClassToken(rest, prefix + "]");
    } else {
      SpecialToken(rest);
      LaterToken(c, rest + "]", prefix + "]");
    }
  }

  lemma BracketIsItself(name: string, inClass: (string, char) -> bool)
    ensures Matches(name, "]", inClass) <==> name == "]"
  {
    LiteralPrefix("]", "", name, inClass);
    assert "]" + "" == "]";
    assert "]" <= name && name[1..] == "" ==> name == "]";
  }

  /** The pattern and the name on which a prefix with a special character does not stand for itself. */
  lemma NotItself(prefix: string, inClass: (string, char) -> bool) returns (q: string, name: string)
    requires !Literal(prefix) && prefix[|prefix| - 1] == ':'
    ensures !(Matches(name, prefix + q, inClass) <==> prefix <= name && Matches(name[|prefix|..], q, inClass))
  {
    q := "]";
    SpecialToken(prefix);
    name := NotJustItself(prefix + q, inClass);
    if prefix <= name {
      BracketIsItself(name[|prefix|..], inClass);
      assert name == prefix + name[|prefix|..];
    }
    assert (prefix + q)[|prefix|..] == q;
  }

  /** A prefix stands for itself in every pattern exactly when it has none of the special characters. */
  lemma LiteralIffItself(prefix: string, inClass: (string, char) -> bool)
    requires prefix != "" && prefix[|prefix| - 1] == ':'
    ensures Literal(prefix) <==>
              forall q, name :: Matches(name, prefix + q, inClass)
                                <==> prefix <= name && Matches(name[|prefix|..], q, inClass)
  {
    if Literal(prefix) {
      forall q, name
        ensures Matches(name, prefix + q, inClass) <==> prefix <= name && Matches(name[|prefix|..], q, inClass)
      {
        LiteralPrefix(prefix, q, name, inClass);
      }
    } else {
      var q, name := NotItself(prefix, inClass);
    }
  }

  // ---------------------------------------------------------------- a star among the ids

  lemma {:induction false} StarSkips(tokens: seq<Token>, name: string, n: nat, inClass: (string, char) -> bool)
    requires n <= |name| && Fits(tokens, name[n..], inClass)
    ensures Fits([Star] + tokens, name, inClass)
    decreases n
  {
    assert ([Star] + tokens)[1..] == tokens;
    if n == 0 {
      assert name[0..] == name;
    } else {
      assert name[1..][n - 1..] == name[n..];
      StarSkips(tokens, name[1..], n - 1, inClass);
    }
  }

  /** After a literal text, a star skips whatever comes before the rest. */
  lemma StarMatches(before: string, skipped: string, after: string, q: string, inClass: (string, char) -> bool)
    requires Literal(before) && Matches(after, q, inClass)
    ensures Matches(before + skipped + after, before + "*" + q, inClass)
  {
    var name := skipped + after;
    assert name[|skipped|..] == after;
    StarSkips(Tokens(q), name, |skipped|, inClass);
    assert ("*" + q)[1..] == q;
    assert before + "*" + q == before + ("*" + q) && before + skipped + after == before + name;
    assert (before + name)[|before|..] == name;
    LiteralPrefix(before, "*" + q, before + name, inClass);
  }
}
