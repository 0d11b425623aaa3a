/** Whatever `json.loads` returns is a value that Python can hold: no dict has a key twice, and every
    float has the text of one. */
module JsonWellFormed {
  import opened Ordering
  import opened Json

  ghost predicate AllWellFormed(vs: seq<Value>) { forall i :: 0 <= i < |vs| ==> WellFormed(vs[i]) }

  ghost predicate ValuesWellFormed(ms: seq<Pair<Value>>) { forall i :: 0 <= i < |ms| ==> WellFormed(ms[i].value) }

  /** A later value of a key takes the place of the earlier one. */
  lemma {:induction false} DictWellFormed(ps: seq<Pair<Value>>)
    requires ValuesWellFormed(ps)
    ensures DistinctKeys(DictOf(ps)) && ValuesWellFormed(DictOf(ps))
  {
    if ps != [] {
      var front, last := ps[..|ps| - 1], ps[|ps| - 1];
      DictWellFormed(front);
      PutPairKeys(DictOf(front), last);
      var r := PutPair(DictOf(front), last);
      forall i | 0 <= i < |r| ensures WellFormed(r[i].value) { assert r[i] in r; }
    }
  }

  lemma AtomWellFormed(s: string)
    ensures ParseAtom(s).Got? ==> WellFormed(ParseAtom(s).value)
  {
  }

  lemma {:induction false} ValueWellFormed(s: string)
    ensures ParseValue(s).Got? ==> WellFormed(ParseValue(s).value)
    decreases |s|, 0
  {
    if s == "" || s[0] == '"' {
    } else if s[0] == '{' {
      ObjectWellFormed(SkipSpace(s[1..]));
    } else if s[0] == '[' {
      ArrayWellFormed(SkipSpace(s[1..]));
    } else {
      AtomWellFormed(s);
    }
  }

  lemma {:induction false} ArrayWellFormed(s: string)
    ensures ParseArray(s).Got? ==> WellFormed(ParseArray(s).value)
    decreases |s|, 2
  {
    if s == "" || s[0] != ']' { ElementsWellFormed(s); }
  }

  lemma {:induction false} ObjectWellFormed(s: string)
    ensures ParseObject(s).Got? ==> WellFormed(ParseObject(s).value)
    decreases |s|, 2
  {
    if s == "" || s[0] != '}' {
      MembersWellFormed(s);
      match ParseMembers(s)
      case Got(ps, _) => DictWellFormed(ps);
      case Miss =>
    }
  }

  lemma {:induction false} ElementsWellFormed(s: string)
    ensures ParseElements(s).Got? ==> AllWellFormed(ParseElements(s).value)
    decreases |s|, 1
  {
    ValueWellFormed(s);
    match ParseValue(s)
    case Got(v, t) => MoreElementsWellFormed(v, SkipSpace(t));
    case Miss =>
  }

  lemma {:induction false} MoreElementsWellFormed(v: Value, s: string)
    requires WellFormed(v)
    ensures MoreElements(v, s).Got? ==> AllWellFormed(MoreElements(v, s).value)
    decreases |s|, 3
  {
    if s != "" && s[0] == ',' { ElementsWellFormed(SkipSpace(s[1..])); }
  }

  lemma {:induction false} MembersWellFormed(s: string)
    ensures ParseMembers(s).Got? ==> ValuesWellFormed(ParseMembers(s).value)
    decreases |s|, 1
  {
    if s != "" && s[0] == '"' {
      match ParseChars(s[1..])
      case Got(k, t) => ColonWellFormed(k, SkipSpace(t));
      case Miss =>
    }
  }

  lemma {:induction false} ColonWellFormed(k: string, s: string)
    ensures ParseColon(k, s).Got? ==> ValuesWellFormed(ParseColon(k, s).value)
    decreases |s|, 3
  {
    if s != "" && s[0] == ':' {
      ValueWellFormed(SkipSpace(s[1..]));
      match ParseValue(SkipSpace(s[1..]))
      case Got(v, t) => MoreMembersWellFormed(Pair(k, v), SkipSpace(t));
      case Miss =>
    }
  }

  lemma {:induction false} MoreMembersWellFormed(m: Pair<Value>, s: string)
    requires WellFormed(m.value)
    ensures MoreMembers(m, s).Got? ==> ValuesWellFormed(MoreMembers(m, s).value)
    decreases |s|, 3
  {
    if s != "" && s[0] == ',' { MembersWellFormed(SkipSpace(s[1..])); }
  }

  /** What is read can be printed and read again. */
  lemma LoadsWellFormed(s: string)
    ensures Loads(s).Some? ==> WellFormed(Loads(s).value)
  {
    ValueWellFormed(SkipSpace(s));
  }
}
