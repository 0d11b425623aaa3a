/** User and bucket names as directory parts (local storage) and as one bucket name (MinIO). */
module NameNormaliser {
  import opened Common

  /** `s.replace(from, to)` for single characters. */
  function ReplaceChar(s: string, from: char, to: char): (r: string)
    ensures |r| == |s|
    ensures forall i :: 0 <= i < |s| ==> r[i] == if s[i] == from then to else s[i]
  {
    seq(|s|, i requires 0 <= i < |s| => if s[i] == from then to else s[i])
  }

  /** `s.replace("--", "-")`: one pass, left to right, without overlaps. */
  function ReplacePairs(s: string): (r: string)
    ensures |r| <= |s|
  {
    if |s| < 2 then s
    else if s[0] == '-' && s[1] == '-' then "-" + ReplacePairs(s[2..])
    else [s[0]] + ReplacePairs(s[1..])
  }

  /** `"--" in s`. */
  predicate HasPair(s: string) {
    |s| >= 2 && ((s[0] == '-' && s[1] == '-') || HasPair(s[1..]))
  }

  /** The reference: every run of hyphens becomes one hyphen. */
  function Collapse(s: string): (r: string)
    ensures |r| <= |s|
  {
    if |s| < 2 then s
    else if s[0] == '-' && s[1] == '-' then Collapse(s[1..])
    else [s[0]] + Collapse(s[1..])
  }

  lemma {:induction false} PassShortens(s: string)
    requires HasPair(s)
    ensures |ReplacePairs(s)| < |s|
  {
    if !(s[0] == '-' && s[1] == '-') {
      PassShortens(s[1..]);
    }
  }

  /** One pass does not change what the name collapses to, whatever character precedes it. */
  lemma {:induction false} PassKeepsCollapse(c: char, s: string)
    ensures Collapse([c] + ReplacePairs(s)) == Collapse([c] + s)
    decreases |s|
  {
    if |s| >= 2 {
      if s[0] == '-' && s[1] == '-' {
        PassKeepsCollapse('-', s[2..]);
        assert ([c] + ReplacePairs(s))[1..] == "-" + ReplacePairs(s[2..]);
        assert ([c] + s)[1..] == s;
        assert s[1..] == "-" + s[2..];
        assert Collapse(s) == Collapse("-" + s[2..]);
      } else {
        PassKeepsCollapse(s[0], s[1..]);
        assert ([c] + ReplacePairs(s))[1..] == [s[0]] + ReplacePairs(s[1..]);
        assert ([c] + s)[1..] == [s[0]] + s[1..];
      }
    }
  }

  lemma PassKeepsName(s: string)
    ensures Collapse(ReplacePairs(s)) == Collapse(s)
  {
    if |s| >= 2 {
      if s[0] == '-' && s[1] == '-' {
        PassKeepsCollapse('-', s[2..]);
        assert s[1..] == "-" + s[2..];
      } else {
        PassKeepsCollapse(s[0], s[1..]);
        assert s == [s[0]] + s[1..];
      }
    }
  }

  lemma {:induction false} NoPairIsCollapsed(s: string)
    requires !HasPair(s)
    ensures Collapse(s) == s
  {
    if |s| >= 2 {
      NoPairIsCollapsed(s[1..]);
      assert s == [s[0]] + s[1..];
    }
  }

  lemma {:induction false} CollapseHasNoPair(s: string)
    ensures !HasPair(Collapse(s))
    ensures s != "" ==> Collapse(s) != "" && Collapse(s)[0] == s[0]
    ensures forall c :: c in Collapse(s) ==> c in s
  {
    if |s| >= 2 {
      CollapseHasNoPair(s[1..]);
      assert s == [s[0]] + s[1..];
      if !(s[0] == '-' && s[1] == '-') {
        assert Collapse(s)[1..] == Collapse(s[1..]);
      }
    }
  }

  /** `while "--" in s: s = s.replace("--", "-")`. */
  method CollapseLoop(name: string) returns (safe: string)
    ensures safe == Collapse(name)
  {
    safe := name;
    while HasPair(safe)
      invariant Collapse(safe) == Collapse(name)
      decreases |safe|
    {
      PassShortens(safe);
      PassKeepsName(safe);
      safe := ReplacePairs(safe);
    }
    NoPairIsCollapsed(safe);
  }

  // ---------------------------------------------------------------- strip("-")

  function StripLeft(s: string): (r: string)
    ensures r == "" || r[0] != '-'
    ensures |r| <= |s| && r == s[|s| - |r|..]
  {
    if s != "" && s[0] == '-' then StripLeft(s[1..]) else s
  }

  function StripRight(s: string): (r: string)
    ensures r == "" || r[|r| - 1] != '-'
    ensures r <= s
  {
    if s != "" && s[|s| - 1] == '-' then StripRight(s[..|s| - 1]) else s
  }

  function Strip(s: string): (r: string)
    ensures r == "" || (r[0] != '-' && r[|r| - 1] != '-')
    ensures forall c :: c in r ==> c in s
  {
    StripRight(StripLeft(s))
  }

  lemma {:induction false} StripLeftNoPair(s: string)
    requires !HasPair(s)
    ensures !HasPair(StripLeft(s))
  {
    if s != "" && s[0] == '-' {
      StripLeftNoPair(s[1..]);
    }
  }

  lemma {:induction false} FrontHasNoPair(s: string, n: nat)
    requires n <= |s| && !HasPair(s)
    ensures !HasPair(s[..n])
  {
    if n >= 2 {
      FrontHasNoPair(s[1..], n - 1);
      assert s[..n][1..] == s[1..][..n - 1];
    }
  }

  lemma StripKeepsNoPair(s: string)
    requires !HasPair(s)
    ensures !HasPair(Strip(s))
  {
    var l := StripLeft(s);
    StripLeftNoPair(s);
    FrontHasNoPair(l, |StripRight(l)|);
    assert l[..|StripRight(l)|] == StripRight(l);
  }

  // ---------------------------------------------------------------- the name parts

  /** `str.lower` as an oracle: its results consist of `plain` characters, and a string of plain
      characters is already lower case. */
  ghost predicate IsLowering(lower: string -> string, plain: char -> bool) {
    && (forall s, c :: c in lower(s) ==> plain(c))
    && (forall s :: (forall c :: c in s ==> plain(c)) ==> lower(s) == s)
    && plain('-')
  }

  function UserPart(lower: string -> string, userId: string): string {
    Strip(Collapse(ReplaceChar(ReplaceChar(lower(userId), '_', '-'), '|', '-')))
  }

  function BucketPart(lower: string -> string, bucket: string): string {
    Strip(Collapse(ReplaceChar(lower(bucket), '_', '-')))
  }

  /** `_get_user_path`, below the base directory. */
  method GetUserPath(lower: string -> string, userId: string) returns (dir: string)
    ensures dir == if userId != "" then "user-" + UserPart(lower, userId) else "default"
  {
    if userId != "" {
      var safeUserId := ReplaceChar(ReplaceChar(lower(userId), '_', '-'), '|', '-');
      safeUserId := CollapseLoop(safeUserId);
      safeUserId := Strip(safeUserId);
      return "user-" + safeUserId;
    }
    return "default";
  }

  /** `_get_bucket_path`: the user directory and the bucket directory in it. */
  method GetBucketPath(lower: string -> string, userId: string, bucket: string) returns (path: (string, string))
    ensures path.0 == if userId != "" then "user-" + UserPart(lower, userId) else "default"
    ensures path.1 == BucketPart(lower, bucket)
  {
    var safeBucket := ReplaceChar(lower(bucket), '_', '-');
    safeBucket := CollapseLoop(safeBucket);
    safeBucket := Strip(safeBucket);
    var dir := GetUserPath(lower, userId);
    return (dir, safeBucket);
  }

  /** MinIO's bucket name is the two directory parts of local storage, joined by a hyphen. */
  method GetPrefixedBucketName(lower: string -> string, userId: string, bucket: string) returns (name: string)
    ensures userId != "" ==> name == "user-" + UserPart(lower, userId) + "-" + BucketPart(lower, bucket)
    ensures userId == "" ==> name == BucketPart(lower, bucket)
  {
    if userId != "" {
      var safeUserId := ReplaceChar(ReplaceChar(lower(userId), '_', '-'), '|', '-');
      safeUserId := CollapseLoop(safeUserId);
      safeUserId := Strip(safeUserId);
      var safeBucket := ReplaceChar(lower(bucket), '_', '-');
      safeBucket := CollapseLoop(safeBucket);
      safeBucket := Strip(safeBucket);
      return "user-" + safeUserId + "-" + safeBucket;
    }
    var safeBucket := ReplaceChar(lower(bucket), '_', '-');
    safeBucket := CollapseLoop(safeBucket);
    return Strip(safeBucket);
  }

  /** A name that normalising leaves alone. */
  ghost predicate IsNormal(plain: char -> bool, s: string) {
    && !HasPair(s)
    && (s == "" || (s[0] != '-' && s[|s| - 1] != '-'))
    && (forall c :: c in s ==> plain(c) && c != '_')
  }

  lemma PlainReplace(plain: char -> bool, s: string, from: char)
    requires plain('-') && from != '-' && forall c :: c in s ==> plain(c)
    ensures forall c :: c in ReplaceChar(s, from, '-') ==> plain(c) && c != from && (c == '-' || c in s)
  {
  }

  lemma NothingToReplace(s: string, from: char)
    requires from !in s
    ensures ReplaceChar(s, from, '-') == s
  {
    assert forall i :: 0 <= i < |s| ==> s[i] in s;
  }

  lemma NoEdgeNothingToStrip(s: string)
    requires s == "" || (s[0] != '-' && s[|s| - 1] != '-')
    ensures Strip(s) == s
  {
  }

  lemma TidyIsNormal(plain: char -> bool, s: string)
    requires forall c :: c in s ==> plain(c) && c != '_'
    ensures IsNormal(plain, Strip(Collapse(s)))
    ensures forall c :: c in Strip(Collapse(s)) ==> c in s
  {
    CollapseHasNoPair(s);
    StripKeepsNoPair(Collapse(s));
  }

  /** Every user part is normal, has no bar, and is its own user part. */
  lemma UserPartNormal(lower: string -> string, plain: char -> bool, userId: string)
    requires IsLowering(lower, plain)
    ensures IsNormal(plain, UserPart(lower, userId)) && '|' !in UserPart(lower, userId)
    ensures UserPart(lower, UserPart(lower, userId)) == UserPart(lower, userId)
  {
    var a := ReplaceChar(lower(userId), '_', '-');
    PlainReplace(plain, lower(userId), '_');
    PlainReplace(plain, a, '|');
    TidyIsNormal(plain, ReplaceChar(a, '|', '-'));
    var u := UserPart(lower, userId);
    assert lower(u) == u;
    NothingToReplace(u, '_');
    NothingToReplace(u, '|');
    NoPairIsCollapsed(u);
    NoEdgeNothingToStrip(u);
  }

  /** Every bucket part is normal, and exactly the normal names are their own bucket part. */
  lemma BucketPartNormal(lower: string -> string, plain: char -> bool, bucket: string)
    requires IsLowering(lower, plain)
    ensures IsNormal(plain, BucketPart(lower, bucket))
    ensures BucketPart(lower, bucket) == bucket <==> IsNormal(plain, bucket)
    ensures BucketPart(lower, BucketPart(lower, bucket)) == BucketPart(lower, bucket)
  {
    PlainReplace(plain, lower(bucket), '_');
    TidyIsNormal(plain, ReplaceChar(lower(bucket), '_', '-'));
    NormalBucketFixed(lower, plain, BucketPart(lower, bucket));
    if IsNormal(plain, bucket) { NormalBucketFixed(lower, plain, bucket); }
  }

  lemma NormalBucketFixed(lower: string -> string, plain: char -> bool, b: string)
    requires IsLowering(lower, plain) && IsNormal(plain, b)
    ensures BucketPart(lower, b) == b
  {
    assert lower(b) == b;
    NothingToReplace(b, '_');
    NoPairIsCollapsed(b);
    NoEdgeNothingToStrip(b);
  }

  // ---------------------------------------------------------------- what a name keeps

  /** The maximal stretches without hyphens, in order. */
  function Words(s: string): seq<string> {
    if s == "" then []
    else if s[0] == '-' then Words(s[1..])
    else
      var rest := Words(s[1..]);
      if |s| == 1 || s[1] == '-' || rest == [] then [[s[0]]] + rest
      else [[s[0]] + rest[0]] + rest[1..]
  }

  function Join(words: seq<string>): string {
    if words == [] then ""
    else if |words| == 1 then words[0]
    else words[0] + "-" + Join(words[1..])
  }

  lemma {:induction false} CollapseKeepsWords(s: string)
    ensures Words(Collapse(s)) == Words(s)
  {
    if |s| >= 2 {
      CollapseKeepsWords(s[1..]);
      CollapseHasNoPair(s[1..]);
      if !(s[0] == '-' && s[1] == '-') {
        assert Collapse(s)[1..] == Collapse(s[1..]);
        assert Collapse(s)[1] == s[1];
      }
    }
  }

  lemma {:induction false} StripLeftKeepsWords(s: string)
    ensures Words(StripLeft(s)) == Words(s)
  {
    if s != "" && s[0] == '-' {
      StripLeftKeepsWords(s[1..]);
    }
  }

  lemma {:induction false} TrailingHyphen(s: string)
    ensures Words(s + "-") == Words(s)
  {
    if s == "" {
      assert s + "-" == "-";
      assert "-"[1..] == "";
    } else {
      TrailingHyphen(s[1..]);
      assert (s + "-")[1..] == s[1..] + "-";
      if |s| == 1 {
        assert s[1..] == "";
        assert s + "-" == [s[0], '-'];
      }
    }
  }

  lemma {:induction false} StripRightKeepsWords(s: string)
    ensures Words(StripRight(s)) == Words(s)
  {
    if s != "" && s[|s| - 1] == '-' {
      StripRightKeepsWords(s[..|s| - 1]);
      TrailingHyphen(s[..|s| - 1]);
      assert s[..|s| - 1] + "-" == s;
    }
  }

  /** A tidy name is its words joined by single hyphens. */
  lemma {:induction false} TidyIsJoined(s: string)
    requires !HasPair(s)
    requires s == "" || (s[0] != '-' && s[|s| - 1] != '-')
    ensures Join(Words(s)) == s
    ensures s != "" ==> Words(s) != []
    decreases |s|
  {
    if |s| >= 2 {
      assert s[1..][|s| - 2] == s[|s| - 1];
      if s[1] == '-' {
        assert |s| > 2;
        assert s[1..][1..] == s[2..];
        assert Words(s[1..]) == Words(s[2..]);
        TidyIsJoined(s[2..]);
        assert Words(s) == [[s[0]]] + Words(s[2..]);
        assert Words(s)[1..] == Words(s[2..]);
        assert s == [s[0]] + "-" + s[2..];
      } else {
        TidyIsJoined(s[1..]);
        assert s == [s[0]] + s[1..];
        JoinExtend(s[0], Words(s[1..]));
      }
    } else if |s| == 1 {
      assert s[1..] == "";
      assert s == [s[0]];
    }
  }

  lemma JoinExtend(c: char, words: seq<string>)
    requires words != []
    ensures Join([[c] + words[0]] + words[1..]) == [c] + Join(words)
  {
    var longer := [[c] + words[0]] + words[1..];
    assert longer[1..] == words[1..];
    if |words| > 1 {
      var tail := "-" + Join(words[1..]);
      assert ([c] + words[0]) + "-" + Join(words[1..]) == [c] + (words[0] + "-" + Join(words[1..]));
    }
  }

  /** The whole clean-up is "split at hyphens, drop empty pieces, join with one hyphen", so two
      names collide exactly when they have the same words. */
  lemma NameIsItsWords(s: string, t: string)
    ensures Strip(Collapse(s)) == Join(Words(s))
    ensures Strip(Collapse(s)) == Strip(Collapse(t)) <==> Words(s) == Words(t)
  {
    TidyWords(s);
    TidyWords(t);
  }

  lemma TidyWords(s: string)
    ensures Words(Strip(Collapse(s))) == Words(s)
    ensures Strip(Collapse(s)) == Join(Words(s))
  {
    var c := Collapse(s);
    CollapseKeepsWords(s);
    StripLeftKeepsWords(c);
    StripRightKeepsWords(StripLeft(c));
    CollapseHasNoPair(s);
    StripKeepsNoPair(c);
    TidyIsJoined(Strip(c));
  }

  // ---------------------------------------------------------------- one bucket for two users

  predicate Tidy(s: string) { !HasPair(s) && (s == "" || (s[0] != '-' && s[|s| - 1] != '-')) }

  /** MinIO's bucket for a user part and a bucket part. */
  function PrefixedName(user: string, bucket: string): string { "user-" + user + "-" + bucket }

  lemma FirstWord(c: char, rest: seq<string>, more: seq<string>)
    requires rest != []
    ensures [[c] + (rest + more)[0]] + (rest + more)[1..] == ([[c] + rest[0]] + rest[1..]) + more
  {
  }

  /** Words of a text with one character more in front. */
  function Fronted(c: char, r: string, words: seq<string>): seq<string> {
    if c == '-' then words
    else if r == "" || r[0] == '-' || words == [] then [[c]] + words
    else [[c] + words[0]] + words[1..]
  }

  lemma WordsFronted(c: char, r: string)
    ensures Words([c] + r) == Fronted(c, r, Words(r))
    ensures r != "" && r[0] != '-' ==> Words(r) != []
  {
    assert ([c] + r)[1..] == r;
  }

  lemma FrontedAcross(c: char, r: string, t: string, words: seq<string>, more: seq<string>)
    requires r != "" && r[0] != '-' ==> words != []
    requires r == "" ==> words == []
    ensures Fronted(c, r + "-" + t, words + more) == Fronted(c, r, words) + more
  {
    if c != '-' && r != "" && r[0] != '-' { FirstWord(c, words, more); }
  }

  lemma {:induction false} WordsAcrossHyphen(s: string, t: string)
    ensures Words(s + "-" + t) == Words(s) + Words(t)
  {
    if s == "" {
      assert (s + "-" + t)[1..] == t;
    } else {
      var c, r := s[0], s[1..];
      assert s == [c] + r && s + "-" + t == [c] + (r + "-" + t);
      WordsAcrossHyphen(r, t);
      WordsFronted(c, r);
      WordsFronted(c, r + "-" + t);
      FrontedAcross(c, r, t, Words(r), Words(t));
    }
  }

  lemma {:induction false} JoinAcross(a: seq<string>, b: seq<string>)
    requires a != [] && b != []
    ensures Join(a + b) == Join(a) + "-" + Join(b)
  {
    if |a| == 1 {
      assert (a + b)[1..] == b;
    } else {
      assert (a + b)[1..] == a[1..] + b;
      JoinAcross(a[1..], b);
      assert a[0] + "-" + (Join(a[1..]) + "-" + Join(b)) == (a[0] + "-" + Join(a[1..])) + "-" + Join(b);
    }
  }

  lemma TwoParts(user: string, bucket: string)
    requires Tidy(user) && Tidy(bucket)
    ensures Words(user + "-" + bucket) == Words(user) + Words(bucket)
    ensures user != "" && bucket != "" ==> user + "-" + bucket == Join(Words(user) + Words(bucket))
    ensures (user == "" <==> (user + "-" + bucket)[0] == '-')
    ensures (bucket == "" <==> (user + "-" + bucket)[|user| + |bucket|] == '-')
  {
    WordsAcrossHyphen(user, bucket);
    TidyIsJoined(user);
    TidyIsJoined(bucket);
    if user != "" && bucket != "" { JoinAcross(Words(user), Words(bucket)); }
  }

  lemma SameParts(u: string, b: string, v: string, c: string)
    requires Tidy(u) && Tidy(b) && Tidy(v) && Tidy(c)
    requires (u == "" <==> v == "") && (b == "" <==> c == "") && Words(u) + Words(b) == Words(v) + Words(c)
    ensures u + "-" + b == v + "-" + c
  {
    if u == "" {
      assert Words(u) + Words(b) == Words(b) && Words(v) + Words(c) == Words(c);
      TidyIsJoined(b);
      TidyIsJoined(c);
    } else if b == "" {
      assert Words(u) + Words(b) == Words(u) && Words(v) + Words(c) == Words(v);
      TidyIsJoined(u);
      TidyIsJoined(v);
    } else {
      TwoParts(u, b);
      TwoParts(v, c);
    }
  }

  lemma DifferentParts(u: string, b: string, v: string, c: string)
    requires Tidy(u) && Tidy(b) && Tidy(v) && Tidy(c) && u + "-" + b == v + "-" + c
    ensures (u == "" <==> v == "") && (b == "" <==> c == "") && Words(u) + Words(b) == Words(v) + Words(c)
  {
    TwoParts(u, b);
    TwoParts(v, c);
    assert |u + "-" + b| == |u| + |b| + 1 && |v + "-" + c| == |v| + |c| + 1;
  }

  /** Two pairs of a user and a bucket are one bucket exactly when the pieces of user and bucket, put
      together, are the same: user `a` with `b-c` and user `a-b` with `c` are. */
  lemma NamesMeet(u: string, b: string, v: string, c: string)
    requires Tidy(u) && Tidy(b) && Tidy(v) && Tidy(c)
    ensures PrefixedName(u, b) == PrefixedName(v, c) <==>
              (u == "" <==> v == "") && (b == "" <==> c == "") && Words(u) + Words(b) == Words(v) + Words(c)
  {
    NameStart(u, b, v, c);
    if u + "-" + b == v + "-" + c {
      DifferentParts(u, b, v, c);
    } else if (u == "" <==> v == "") && (b == "" <==> c == "") && Words(u) + Words(b) == Words(v) + Words(c) {
      SameParts(u, b, v, c);
    }
  }

  lemma NameStart(u: string, b: string, v: string, c: string)
    ensures PrefixedName(u, b) == PrefixedName(v, c) <==> u + "-" + b == v + "-" + c
  {
    var x, y := u + "-" + b, v + "-" + c;
    assert PrefixedName(u, b) == "user-" + x && PrefixedName(v, c) == "user-" + y;
    SameTail("user-", x, y);
  }
}
