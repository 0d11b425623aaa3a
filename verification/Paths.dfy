/** Paths as the file system reads them: which file a text of names and slashes denotes.

    There are no symbolic links. A path is the names from the root down. */
module Paths {
  type Path = seq<string>

  // ---------------------------------------------------------------- splitting and joining

  /** The text up to the first slash. */
  function FirstPart(s: string): (r: string)
    ensures '/' !in r && r <= s
    ensures |r| < |s| ==> s[|r|] == '/'
    ensures '/' !in s <==> r == s
  {
    if s == "" || s[0] == '/' then ""
    else
      assert s == [s[0]] + s[1..];
      [s[0]] + FirstPart(s[1..])
  }

  /** The parts between slashes that are names: not empty, and not the directory itself. */
  function Names(s: string): (r: seq<string>)
    ensures forall n :: n in r ==> n != "" && n != "." && '/' !in n
    decreases |s|
  {
    var part := FirstPart(s);
    (if part == "" || part == "." then [] else [part]) +
    if |part| == |s| then [] else Names(s[|part| + 1..])
  }

  /** A name that a directory can hold. */
  predicate ProperName(n: string) { n != "" && '/' !in n && n != "." && n != ".." }

  ghost predicate ProperNames(names: seq<string>) { forall n :: n in names ==> ProperName(n) }

  /** `str(PurePath(*names))` of a relative path. */
  function Text(names: seq<string>): string {
    if names == [] then ""
    else if |names| == 1 then names[0]
    else names[0] + "/" + Text(names[1..])
  }

  lemma OneName(n: string)
    requires ProperName(n)
    ensures Names(n) == [n]
  {
  }

  lemma NameThenRest(n: string, rest: string)
    requires '/' !in n && n != "" && n != "."
    ensures Names(n + "/" + rest) == [n] + Names(rest)
  {
    var s := n + "/" + rest;
    FirstPartIs(s, n);
    assert s[|n| + 1..] == rest;
  }

  lemma {:induction false} FirstPartIs(s: string, n: string)
    requires '/' !in n && |n| < |s| && n <= s && s[|n|] == '/'
    ensures FirstPart(s) == n
  {
    if n != "" {
      assert s[0] == n[0];
      assert n == [n[0]] + n[1..];
      FirstPartIs(s[1..], n[1..]);
    }
  }

  /** A relative path survives being printed. */
  lemma {:induction false} NamesOfText(names: seq<string>)
    requires ProperNames(names)
    ensures Names(Text(names)) == names
  {
    if names == [] {
    } else if |names| == 1 {
      OneName(names[0]);
    } else {
      assert names[0] in names && ProperNames(names[1..]);
      NamesOfText(names[1..]);
      NameThenRest(names[0], Text(names[1..]));
    }
  }

  // ---------------------------------------------------------------- resolving

  predicate Rooted(s: string) { s != "" && s[0] == '/' }

  /** Neither rooted nor with a step up. */
  predicate Relative(s: string) { !Rooted(s) && ".." !in Names(s) }

  function Enter(p: Path, name: string): Path {
    if name != ".." then p + [name] else if p == [] then [] else p[..|p| - 1]
  }

  function Walk(p: Path, names: seq<string>): Path
    decreases |names|
  {
    if names == [] then p else Walk(Enter(p, names[0]), names[1..])
  }

  /** `(p / s).resolve()`. */
  function Joined(p: Path, s: string): Path { Walk(if Rooted(s) then [] else p, Names(s)) }

  lemma {:induction false} WalkForward(p: Path, names: seq<string>)
    requires ".." !in names
    ensures Walk(p, names) == p + names
    decreases |names|
  {
    if names != [] {
      assert names[0] in names;
      WalkForward(Enter(p, names[0]), names[1..]);
      assert p + [names[0]] + names[1..] == p + names;
    }
  }

  lemma JoinedForward(p: Path, s: string)
    requires Relative(s)
    ensures Joined(p, s) == p + Names(s)
  {
    WalkForward(p, Names(s));
  }

  lemma {:induction false} WalkProper(p: Path, names: seq<string>)
    requires ProperNames(p) && forall n :: n in names ==> n == ".." || ProperName(n)
    ensures ProperNames(Walk(p, names))
    decreases |names|
  {
    if names != [] {
      assert names[0] in names;
      assert ProperNames(Enter(p, names[0]));
      WalkProper(Enter(p, names[0]), names[1..]);
    }
  }

  lemma JoinedProper(p: Path, s: string)
    requires ProperNames(p)
    ensures ProperNames(Joined(p, s))
  {
    WalkProper(if Rooted(s) then [] else p, Names(s));
  }

  /** A text names a child of the directory, under that very name, exactly when it is a proper name. */
  lemma OwnDirectory(p: Path, s: string)
    requires ProperNames(p)
    ensures Joined(p, s) == p + [s] <==> ProperName(s)
  {
    JoinedProper(p, s);
    assert (p + [s])[|p|] == s;
    if ProperName(s) {
      OneName(s);
      JoinedForward(p, s);
    }
  }
}
