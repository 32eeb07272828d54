/** The parts of Python's `str` behaviour the modelled code relies on:
    `strip()`, `split(sep)`, `split()` with no argument, and `lower()`. */
module PyStr {

  /** The characters `str.isspace()` accepts; `strip()` and `split()`
      remove exactly these. */
  predicate IsSpace(c: char) {
    c == ' ' || ('\t' <= c <= '\r') || ('\U{1c}' <= c <= '\U{1f}')
    || c == '\U{85}' || c == '\U{a0}' || c == '\U{1680}'
    || ('\U{2000}' <= c <= '\U{200a}') || c == '\U{2028}' || c == '\U{2029}'
    || c == '\U{202f}' || c == '\U{205f}' || c == '\U{3000}'
  }

  predicate AllSpace(s: string) {
    forall i :: 0 <= i < |s| ==> IsSpace(s[i])
  }

  /** A token of `split()`: non-empty and free of whitespace. */
  predicate Token(w: string) {
    w != [] && forall i :: 0 <= i < |w| ==> !IsSpace(w[i])
  }

  // ---------------------------------------------------------------- strip

  function StripLeft(s: string): (r: string)
    ensures |r| <= |s|
  {
    if s != [] && IsSpace(s[0]) then StripLeft(s[1..]) else s
  }

  function StripRight(s: string): (r: string)
    ensures |r| <= |s|
  {
    if s != [] && IsSpace(s[|s| - 1]) then StripRight(s[..|s| - 1]) else s
  }

  /** `lstrip()` keeps a suffix, removes only whitespace, and stops at the
      first character that is not whitespace. */
  lemma {:induction false} StripLeftShape(s: string)
    ensures var r := StripLeft(s);
      && r == s[|s| - |r|..]
      && AllSpace(s[..|s| - |r|])
      && (r == [] || !IsSpace(r[0]))
  {
    if s != [] && IsSpace(s[0]) {
      var r := StripLeft(s[1..]);
      StripLeftShape(s[1..]);
      assert s[..|s| - |r|] == [s[0]] + s[1..][..|s| - 1 - |r|];
    }
  }

  /** `rstrip()` keeps a prefix, removes only whitespace, and stops at the
      last character that is not whitespace. */
  lemma {:induction false} StripRightShape(s: string)
    ensures var r := StripRight(s);
      && r == s[..|r|]
      && AllSpace(s[|r|..])
      && (r == [] || !IsSpace(r[|r| - 1]))
  {
    if s != [] && IsSpace(s[|s| - 1]) {
      var r := StripRight(s[..|s| - 1]);
      StripRightShape(s[..|s| - 1]);
      assert s[|r|..] == s[..|s| - 1][|r|..] + [s[|s| - 1]];
    }
  }

  /** A string cut at both ends, where what is cut off is whitespace, sits
      between two runs of whitespace. */
  lemma StripFrame(s: string, t: string, r: string)
    requires |t| <= |s| && t == s[|s| - |t|..] && AllSpace(s[..|s| - |t|])
    requires |r| <= |t| && r == t[..|r|] && AllSpace(t[|r|..])
    ensures var k := |s| - |t|;
      r == s[k..k + |r|] && AllSpace(s[..k]) && AllSpace(s[k + |r|..])
  {
    var k := |s| - |t|;
    assert r == s[k..k + |r|];
    assert s[k + |r|..] == t[|r|..];
  }

  /** `s.strip()`: what is left once leading and trailing whitespace is
      removed. */
  function Strip(s: string): (r: string)
    ensures |r| <= |s|
  {
    StripRight(StripLeft(s))
  }

  /** `strip()` leaves the middle part of `s` that starts after its leading
      whitespace, framed by whitespace on both sides, with no whitespace at
      either of its ends. */
  lemma StripShape(s: string)
    ensures var r := Strip(s);
      var k := |s| - |StripLeft(s)|;
      && (r == [] || (!IsSpace(r[0]) && !IsSpace(r[|r| - 1])))
      && k + |r| <= |s| && r == s[k..k + |r|] && AllSpace(s[..k]) && AllSpace(s[k + |r|..])
  {
    var t := StripLeft(s);
    var r := StripRight(t);
    StripLeftShape(s);
    StripRightShape(t);
    StripEnds(t, r);
    StripFrame(s, t, r);
  }

  /** A prefix of text that starts with non-whitespace starts the same
      way. */
  lemma StripEnds(t: string, r: string)
    requires t == [] || !IsSpace(t[0])
    requires |r| <= |t| && r == t[..|r|]
    requires r == [] || !IsSpace(r[|r| - 1])
    ensures r == [] || (!IsSpace(r[0]) && !IsSpace(r[|r| - 1]))
  {
    if r != [] {
      assert r[0] == t[0];
    }
  }

  // ------------------------------------------------------------ split(sep)

  function Occurrences(s: string, c: char): nat {
    if s == [] then 0 else (if s[0] == c then 1 else 0) + Occurrences(s[1..], c)
  }

  /** `s.split(sep)` for a one-character separator: always at least one
      piece, one more piece than there are separators. */
  function SplitOn(s: string, sep: char): (r: seq<string>)
    ensures |r| == Occurrences(s, sep) + 1
    ensures forall i :: 0 <= i < |r| ==> sep !in r[i]
  {
    if s == [] then [[]]
    else
      var rest := SplitOn(s[1..], sep);
      if s[0] == sep then [[]] + rest
      else [[s[0]] + rest[0]] + rest[1..]
  }

  /** `sep.join(parts)`, the inverse of `SplitOn`. */
  function JoinWith(parts: seq<string>, sep: char): string
    requires |parts| >= 1
  {
    if |parts| == 1 then parts[0] else parts[0] + [sep] + JoinWith(parts[1..], sep)
  }

  lemma {:induction false} SplitOnJoin(s: string, sep: char)
    ensures JoinWith(SplitOn(s, sep), sep) == s
  {
    if s != [] {
      SplitOnJoin(s[1..], sep);
      var rest := SplitOn(s[1..], sep);
      if s[0] != sep && |rest| > 1 {
        assert JoinWith(rest, sep) == rest[0] + [sep] + JoinWith(rest[1..], sep);
      }
    }
  }

  /** Splitting text that starts with a separator-free prefix. */
  lemma {:induction false} SplitOnPrefix(a: string, b: string, sep: char)
    requires sep !in a
    ensures SplitOn(a + b, sep) == [a + SplitOn(b, sep)[0]] + SplitOn(b, sep)[1..]
  {
    if a != [] {
      assert (a + b)[0] == a[0] != sep;
      assert (a + b)[1..] == a[1..] + b;
      SplitOnPrefix(a[1..], b, sep);
      assert [a[0]] + (a[1..] + SplitOn(b, sep)[0]) == a + SplitOn(b, sep)[0];
    } else {
      var x := SplitOn(b, sep);
      assert a + b == b && a + x[0] == x[0];
      assert x == [x[0]] + x[1..];
    }
  }

  lemma SplitOnAt(a: string, b: string, sep: char)
    requires sep !in a
    ensures SplitOn(a + [sep] + b, sep) == [a] + SplitOn(b, sep)
  {
    SplitOnPrefix(a, [sep] + b, sep);
    assert a + [sep] + b == a + ([sep] + b);
    assert ([sep] + b)[1..] == b;
    assert SplitOn([sep] + b, sep) == [[]] + SplitOn(b, sep);
    assert a + [] == a;
  }

  lemma SplitOnNone(a: string, sep: char)
    requires sep !in a
    ensures SplitOn(a, sep) == [a]
  {
    SplitOnPrefix(a, [], sep);
    assert a + [] == a;
  }

  /** Text with two separators after separator-free pieces: the pieces
      come first, then whatever the rest splits into. */
  lemma SplitOnTwo(a: string, b: string, rest: string, sep: char)
    requires sep !in a && sep !in b
    ensures SplitOn(a + [sep] + b + [sep] + rest, sep) == [a, b] + SplitOn(rest, sep)
  {
    assert a + [sep] + b + [sep] + rest == a + [sep] + (b + [sep] + rest);
    SplitOnAt(a, b + [sep] + rest, sep);
    SplitOnAt(b, rest, sep);
  }

  /** Splitting a joined sequence of separator-free pieces gives the
      pieces back. */
  lemma {:induction false} JoinSplitOn(parts: seq<string>, sep: char)
    requires |parts| >= 1
    requires forall i :: 0 <= i < |parts| ==> sep !in parts[i]
    ensures SplitOn(JoinWith(parts, sep), sep) == parts
  {
    if |parts| == 1 {
      SplitOnNone(parts[0], sep);
    } else {
      JoinSplitOn(parts[1..], sep);
      SplitOnAt(parts[0], JoinWith(parts[1..], sep), sep);
    }
  }

  /** Text that neither starts nor ends with whitespace. */
  predicate Trimmed(m: string) {
    m == [] || (!IsSpace(m[0]) && !IsSpace(m[|m| - 1]))
  }

  lemma {:induction false} StripRightPadded(t: string, b: string)
    requires AllSpace(b)
    requires t == [] || !IsSpace(t[|t| - 1])
    ensures StripRight(t + b) == t
    decreases |b|
  {
    if b == [] {
      assert t + b == t;
    } else {
      var s := t + b;
      var b' := b[..|b| - 1];
      assert s[|s| - 1] == b[|b| - 1];
      assert s[..|s| - 1] == t + b';
      assert StripRight(s) == StripRight(t + b');
      StripRightPadded(t, b');
    }
  }

  /** `strip()` removes exactly the whitespace padding around trimmed
      text. */
  lemma StripPadded(a: string, m: string, b: string)
    requires AllSpace(a) && AllSpace(b) && Trimmed(m)
    ensures Strip(a + m + b) == m
  {
    assert a + m + b == a + (m + b);
    StripLeftSpaces(a, m + b);
    if m == [] {
      assert m + b == b;
      StripLeftSpaces(b, []);
      assert b + [] == b;
    } else {
      assert (m + b)[0] == m[0];
      StripRightPadded(m, b);
    }
  }

  lemma StripTrimmed(m: string)
    requires Trimmed(m)
    ensures Strip(m) == m
  {
    assert [] + m + [] == m;
    StripPadded([], m, []);
  }

  lemma StripLeading(sp: string, m: string)
    requires AllSpace(sp) && Trimmed(m)
    ensures Strip(sp + m) == m
  {
    assert sp + m + [] == sp + m;
    StripPadded(sp, m, []);
  }

  // --------------------------------------------------------------- split()

  /** The longest whitespace-free prefix of `t`. */
  function Word(t: string): (w: string)
    ensures |w| <= |t| && w == t[..|w|]
    ensures forall i :: 0 <= i < |w| ==> !IsSpace(w[i])
    ensures |w| < |t| ==> IsSpace(t[|w|])
  {
    if t == [] || IsSpace(t[0]) then [] else [t[0]] + Word(t[1..])
  }

  /** `s.split()`: the maximal whitespace-free runs of `s`, in order. */
  function SplitWs(s: string): (r: seq<string>)
    ensures forall i :: 0 <= i < |r| ==> Token(r[i])
    decreases |s|
  {
    var t := StripLeft(s);
    if t == [] then []
    else
      StripLeftShape(s);
      var w := Word(t);
      [w] + SplitWs(t[|w|..])
  }

  /** `" ".join(tokens)`. */
  function JoinWs(tokens: seq<string>): string {
    if tokens == [] then []
    else if |tokens| == 1 then tokens[0]
    else tokens[0] + " " + JoinWs(tokens[1..])
  }

  lemma {:induction false} StripLeftSpaces(sp: string, rest: string)
    requires AllSpace(sp)
    ensures StripLeft(sp + rest) == StripLeft(rest)
  {
    if sp != [] {
      assert (sp + rest)[1..] == sp[1..] + rest;
      StripLeftSpaces(sp[1..], rest);
    } else {
      assert sp + rest == rest;
    }
  }

  lemma {:induction false} WordOf(w: string, rest: string)
    requires forall i :: 0 <= i < |w| ==> !IsSpace(w[i])
    requires rest == [] || IsSpace(rest[0])
    ensures Word(w + rest) == w
  {
    if w != [] {
      assert (w + rest)[1..] == w[1..] + rest;
      WordOf(w[1..], rest);
    } else {
      assert w + rest == rest;
    }
  }

  /** Leading whitespace does not change the tokens. */
  lemma SplitWsSpaces(sp: string, rest: string)
    requires AllSpace(sp)
    ensures SplitWs(sp + rest) == SplitWs(rest)
  {
    StripLeftSpaces(sp, rest);
    StripLeftSpaces([], rest);
  }

  /** A token followed by the end or by whitespace is the first token. */
  lemma SplitWsCons(w: string, rest: string)
    requires Token(w)
    requires rest == [] || IsSpace(rest[0])
    ensures SplitWs(w + rest) == [w] + SplitWs(rest)
  {
    var s := w + rest;
    assert StripLeft(s) == s;
    WordOf(w, rest);
    assert s[|w|..] == rest;
  }

  /** Splitting tokens joined by single spaces, with any trailing
      whitespace, gives the tokens back. */
  lemma {:induction false} JoinSplitWs(tokens: seq<string>, trail: string)
    requires forall i :: 0 <= i < |tokens| ==> Token(tokens[i])
    requires AllSpace(trail)
    ensures SplitWs(JoinWs(tokens) + trail) == tokens
  {
    if tokens == [] {
      assert JoinWs(tokens) + trail == trail;
      SplitWsTrail(trail);
    } else if |tokens| == 1 {
      JoinSplitWsOne(tokens, trail);
    } else {
      JoinSplitWs(tokens[1..], trail);
      JoinSplitWsStep(tokens, trail);
    }
  }

  /** `" ".join(tokens).split() == tokens`. */
  lemma SplitJoinWs(tokens: seq<string>)
    requires forall i :: 0 <= i < |tokens| ==> Token(tokens[i])
    ensures SplitWs(JoinWs(tokens)) == tokens
  {
    JoinSplitWs(tokens, []);
    assert JoinWs(tokens) + [] == JoinWs(tokens);
  }

  /** A character other than the blank that no token holds is not in
      their join. */
  lemma {:induction false} JoinWsWithout(tokens: seq<string>, c: char)
    requires c != ' '
    requires forall i :: 0 <= i < |tokens| ==> c !in tokens[i]
    ensures c !in JoinWs(tokens)
  {
    if |tokens| >= 2 {
      JoinWsWithout(tokens[1..], c);
    }
  }

  /** Three tokens separated by single blanks, with trailing whitespace,
      split back into the three. */
  lemma SplitWsThree(a: string, b: string, c: string, trail: string)
    requires Token(a) && Token(b) && Token(c) && AllSpace(trail)
    ensures SplitWs(a + " " + b + " " + c + trail) == [a, b, c]
  {
    assert [a, b, c][1..] == [b, c];
    assert [b, c][1..] == [c];
    assert JoinWs([b, c]) == b + " " + c;
    assert JoinWs([a, b, c]) == a + " " + (b + " " + c);
    assert a + " " + (b + " " + c) + trail == a + " " + b + " " + c + trail;
    JoinSplitWs([a, b, c], trail);
  }

  lemma JoinSplitWsOne(tokens: seq<string>, trail: string)
    requires |tokens| == 1 && Token(tokens[0])
    requires AllSpace(trail)
    ensures SplitWs(JoinWs(tokens) + trail) == tokens
  {
    var w := tokens[0];
    assert JoinWs(tokens) == w;
    SplitWsSingle(w, trail);
    assert tokens == [w];
  }

  lemma JoinSplitWsStep(tokens: seq<string>, trail: string)
    requires |tokens| >= 2 && Token(tokens[0])
    requires SplitWs(JoinWs(tokens[1..]) + trail) == tokens[1..]
    ensures SplitWs(JoinWs(tokens) + trail) == tokens
  {
    var w, more := tokens[0], tokens[1..];
    assert tokens == [w] + more;
    SplitWsJoinCons(w, more, trail);
  }

  lemma SplitWsTrail(trail: string)
    requires AllSpace(trail)
    ensures SplitWs(trail) == []
  {
    SplitWsSpaces(trail, []);
    assert trail + [] == trail;
  }

  lemma SplitWsSingle(w: string, trail: string)
    requires Token(w)
    requires AllSpace(trail)
    ensures SplitWs(w + trail) == [w]
  {
    SplitWsCons(w, trail);
    SplitWsTrail(trail);
  }

  lemma SplitWsJoinCons(w: string, more: seq<string>, trail: string)
    requires Token(w) && |more| >= 1
    requires SplitWs(JoinWs(more) + trail) == more
    ensures SplitWs(JoinWs([w] + more) + trail) == [w] + more
  {
    JoinWsCons(w, more, trail);
    SplitWsCons(w, " " + (JoinWs(more) + trail));
    SplitWsSpaces(" ", JoinWs(more) + trail);
  }

  lemma JoinWsCons(w: string, more: seq<string>, trail: string)
    requires |more| >= 1
    ensures JoinWs([w] + more) + trail == w + (" " + (JoinWs(more) + trail))
  {
    var t := [w] + more;
    assert t[0] == w && t[1..] == more;
    assert JoinWs(t) == w + " " + JoinWs(more);
    ConcatAssoc(w, " ", JoinWs(more), trail);
  }

  /** Concatenation of four strings regroups freely. */
  lemma ConcatAssoc(a: string, b: string, c: string, d: string)
    ensures a + b + c + d == a + (b + (c + d))
  {
  }

  // --------------------------------------------------------------- lower()

  function LowerChar(c: char): char {
    if 'A' <= c <= 'Z' then (c as int + 32) as char else c
  }

  /** `s.lower()` on ASCII letters.  Compared only against the ASCII words
      "true", "false", "y" and "n", for which no other character's Python
      lower case matters. */
  function Lower(s: string): (r: string)
    ensures |r| == |s|
    ensures forall i :: 0 <= i < |s| ==> r[i] == LowerChar(s[i])
  {
    seq(|s|, i requires 0 <= i < |s| => LowerChar(s[i]))
  }
}
