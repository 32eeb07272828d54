/** The `-r` option of the analyser: a comma-separated list of report
    ranges `start[:last][+count]`, each naming the first report line, an
    optional last line and an optional number of paths to read. */
module ScanRange {
  import opened Wrappers
  import opened PyStr
  import opened Digits

  /** One entry of the range list: `[start, last, count]`, None where the
      item left that part out. */
  datatype Range = Range(start: nat, last: Option<nat>, count: Option<nat>)

  /** The range used when no item of the option is well formed: from the
      top of the report, one path. */
  const DefaultRange: Range := Range(0, None, Some(1))

  /** The three digit groups of an item, as the pattern
      `(\d+)(?::(\d+))?(?:\+(\d+))?` captures them. */
  datatype RangeText = RangeText(st: string, ed: Option<string>, nu: Option<string>)

  predicate Group(g: string) {
    g != [] && AllDigits(g)
  }

  predicate WellFormed(t: RangeText) {
    Group(t.st)
    && (t.ed.Some? ==> Group(t.ed.value))
    && (t.nu.Some? ==> Group(t.nu.value))
  }

  /** The text a set of groups spells. */
  function Render(t: RangeText): string {
    t.st
    + (if t.ed.Some? then ":" + t.ed.value else "")
    + (if t.nu.Some? then "+" + t.nu.value else "")
  }

  /** `range_re.fullmatch(item)` succeeds: the item is exactly the text of
      some well-formed groups. */
  ghost predicate FullMatch(s: string) {
    exists t :: WellFormed(t) && Render(t) == s
  }

  // --------------------------------------------------------------- lexing

  /** The optional `+count` suffix: Some(None) for the empty text,
      Some(Some(g)) for `+g`, None for anything else. */
  function LexCount(s: string): (r: Option<Option<string>>)
    ensures r.Some? ==> (r.value.Some? ==> Group(r.value.value))
                        && s == (if r.value.Some? then "+" + r.value.value else "")
  {
    if s == [] then Some(None)
    else if s[0] == '+' && Group(s[1..]) then
      assert s == "+" + s[1..];
      Some(Some(s[1..]))
    else None
  }

  /** The groups of an item, read left to right, each digit run taken whole. */
  function Lex(s: string): (r: Option<RangeText>)
    ensures r.Some? ==> WellFormed(r.value) && Render(r.value) == s
  {
    var st := DigitRun(s);
    if st == [] then None
    else
      assert s == st + s[|st|..];
      LexAfter(st, s[|st|..])
  }

  /** The optional `:last` and `+count` parts that follow the start group
      `st`, read from `rest`. */
  function LexAfter(st: string, rest: string): (r: Option<RangeText>)
    requires Group(st)
    ensures r.Some? ==> WellFormed(r.value) && Render(r.value) == st + rest
  {
    if rest != [] && rest[0] == ':' then
      var ed := DigitRun(rest[1..]);
      var tail := rest[1..][|ed|..];
      if ed == [] then None
      else
        match LexCount(tail)
        case None => None
        case Some(nu) =>
          assert rest == ":" + ed + tail;
          assert st + rest == st + (":" + ed) + tail;
          Some(RangeText(st, Some(ed), nu))
    else
      match LexCount(rest)
      case None => None
      case Some(nu) =>
        assert st + rest == st + "" + rest;
        Some(RangeText(st, None, nu))
  }

  /** The numbers `int()` gives the groups. */
  function Values(t: RangeText): (r: Range)
    requires WellFormed(t)
  {
    Range(DecimalValue(t.st),
          if t.ed.Some? then Some(DecimalValue(t.ed.value)) else None,
          if t.nu.Some? then Some(DecimalValue(t.nu.value)) else None)
  }

  /** One item: its range, or None when the pattern does not match it.  A
      range's start is the value of the item's leading digits, so an item
      that does not start with a digit yields none. */
  function ParseItem(s: string): (r: Option<Range>)
    ensures r.Some? ==> s != [] && IsDigit(s[0])
    ensures r.Some? ==> r.value.start == DecimalValue(DigitRun(s))
  {
    match Lex(s)
    case None => None
    case Some(t) =>
      LexStart(s);
      Some(Values(t))
  }

  /** The start group is the item's whole leading digit run. */
  lemma LexStart(s: string)
    requires Lex(s).Some?
    ensures Lex(s).value.st == DigitRun(s)
  {
    var st := DigitRun(s);
    var rest := s[|st|..];
    assert Lex(s) == LexAfter(st, rest);
  }

  // ------------------------------------------------------------ the list

  /** The ranges of the items that match, in the order of the items. */
  function Matched(items: seq<string>): seq<Range> {
    if items == [] then []
    else
      var prev := Matched(items[..|items| - 1]);
      match ParseItem(items[|items| - 1])
      case None => prev
      case Some(r) => prev + [r]
  }

  /** `range_list` after the parsing in `main`: never empty, the default
      without the option, and at most one range per item. */
  function RangeList(arg: Option<string>): (r: seq<Range>)
    ensures r != []
    ensures arg.None? ==> r == [DefaultRange]
    ensures arg.Some? ==> |r| <= |SplitOn(arg.value, ',')|
  {
    var found := if arg.Some? then Matched(SplitOn(arg.value, ',')) else [];
    assert arg.Some? ==> |found| <= |SplitOn(arg.value, ',')| by {
      if arg.Some? { MatchedLength(SplitOn(arg.value, ',')); }
    }
    if found == [] then [DefaultRange] else found
  }

  /** Each item contributes at most one range. */
  lemma {:induction false} MatchedLength(items: seq<string>)
    ensures |Matched(items)| <= |items|
    decreases |items|
  {
    if items != [] {
      MatchedLength(items[..|items| - 1]);
    }
  }

  /** The parsing as the source runs it: one pass over the comma-separated
      items, appending the range of each item that matches. */
  method ParseRanges(arg: Option<string>) returns (ranges: seq<Range>)
    ensures ranges == RangeList(arg)
  {
    ranges := [];
    if arg.Some? {
      var items := SplitOn(arg.value, ',');
      var i := 0;
      while i < |items|
        invariant 0 <= i <= |items|
        invariant ranges == Matched(items[..i])
      {
        MatchedStep(items, i);
        var r := ParseItem(items[i]);
        if r.Some? {
          ranges := ranges + [r.value];
        }
        i := i + 1;
      }
      assert items[..|items|] == items;
    }
    if ranges == [] {
      ranges := [DefaultRange];
    }
  }

  // -------------------------------------------------------------- lemmas

  /** One more item adds its range, if it has one. */
  lemma MatchedStep(items: seq<string>, i: nat)
    requires i < |items|
    ensures Matched(items[..i + 1])
            == if ParseItem(items[i]).Some? then Matched(items[..i]) + [ParseItem(items[i]).value]
               else Matched(items[..i])
  {
    assert items[..i + 1][..i] == items[..i];
  }

  lemma LexCountComplete(nu: Option<string>)
    requires nu.Some? ==> Group(nu.value)
    ensures LexCount(if nu.Some? then "+" + nu.value else "") == Some(nu)
  {
    if nu.Some? {
      assert ("+" + nu.value)[1..] == nu.value;
    }
  }

  /** Reading back the text of well-formed groups gives those groups. */
  lemma LexComplete(t: RangeText)
    requires WellFormed(t)
    ensures Lex(Render(t)) == Some(t)
  {
    var s := Render(t);
    var rest := AfterText(t);
    assert s == t.st + rest;
    DigitRunOf(t.st, rest);
    assert s[|t.st|..] == rest;
    LexAfterComplete(t);
  }

  /** The text of the groups after the start group. */
  function AfterText(t: RangeText): string {
    (if t.ed.Some? then ":" + t.ed.value else "")
    + (if t.nu.Some? then "+" + t.nu.value else "")
  }

  /** Reading back the optional parts of well-formed groups gives them. */
  lemma LexAfterComplete(t: RangeText)
    requires WellFormed(t)
    ensures LexAfter(t.st, AfterText(t)) == Some(t)
  {
    var rest := AfterText(t);
    var nuText := if t.nu.Some? then "+" + t.nu.value else "";
    LexCountComplete(t.nu);
    if t.ed.Some? {
      var ed := t.ed.value;
      assert rest[0] == ':';
      assert rest[1..] == ed + nuText;
      DigitRunOf(ed, nuText);
      assert rest[1..][|ed|..] == nuText;
    } else {
      assert rest == nuText;
    }
  }

  /** An item is lexed exactly when the pattern matches it in full. */
  lemma LexMatches(s: string)
    ensures Lex(s).Some? <==> FullMatch(s)
  {
    if FullMatch(s) {
      var t :| WellFormed(t) && Render(t) == s;
      LexComplete(t);
    }
  }

  /** Whatever groups spell an item, the lexer reads exactly those. */
  lemma LexUnique(s: string)
    ensures forall t :: WellFormed(t) && Render(t) == s ==> Lex(s) == Some(t)
  {
    forall t | WellFormed(t) && Render(t) == s
      ensures Lex(s) == Some(t)
    {
      LexComplete(t);
    }
  }

  /** An item yields a range exactly when the pattern matches it in full,
      and that range holds the values of the groups that spell the item. */
  lemma ParseItemSpec(s: string)
    ensures ParseItem(s).Some? <==> FullMatch(s)
    ensures forall t :: WellFormed(t) && Render(t) == s ==> ParseItem(s) == Some(Values(t))
  {
    LexMatches(s);
    LexUnique(s);
  }

  /** A range written out as `start[:last][+count]`. */
  function Format(r: Range): string
  {
    DecimalText(r.start)
    + (if r.last.Some? then ":" + DecimalText(r.last.value) else "")
    + (if r.count.Some? then "+" + DecimalText(r.count.value) else "")
  }

  /** A range written out parses back to itself. */
  lemma RangeRoundTrip(r: Range)
    ensures ParseItem(Format(r)) == Some(r)
  {
    var t := RangeText(DecimalText(r.start),
                       if r.last.Some? then Some(DecimalText(r.last.value)) else None,
                       if r.count.Some? then Some(DecimalText(r.count.value)) else None);
    assert Render(t) == Format(r);
    LexComplete(t);
    DecimalRoundTrip(r.start);
    if r.last.Some? {
      DecimalRoundTrip(r.last.value);
    }
    if r.count.Some? {
      DecimalRoundTrip(r.count.value);
    }
  }

  /** The items of two lists give the ranges of the first, then those of
      the second. */
  lemma {:induction false} MatchedAppend(a: seq<string>, b: seq<string>)
    ensures Matched(a + b) == Matched(a) + Matched(b)
    decreases |b|
  {
    if b == [] {
      assert a + b == a;
    } else {
      var b' := b[..|b| - 1];
      assert (a + b)[..|a + b| - 1] == a + b';
      assert (a + b)[|a + b| - 1] == b[|b| - 1];
      MatchedAppend(a, b');
    }
  }

  /** Every range in the list comes from a matching item, and every
      matching item contributes its range. */
  lemma {:induction false} MatchedOne(s: string)
    ensures Matched([s]) == (if FullMatch(s) then [Values(Lex(s).value)] else [])
  {
    LexMatches(s);
    assert [s][..0] == [];
  }

  /** The list is never empty; it is the default range exactly when no item
      matches. */
  lemma {:induction false} NoMatchDefault(items: seq<string>)
    ensures Matched(items) == [] <==> forall i :: 0 <= i < |items| ==> !FullMatch(items[i])
    decreases |items|
  {
    if items != [] {
      var init := items[..|items| - 1];
      var last := items[|items| - 1];
      NoMatchDefault(init);
      LexMatches(last);
      if forall i :: 0 <= i < |init| ==> !FullMatch(init[i]) {
        if !FullMatch(last) {
          forall i | 0 <= i < |items|
            ensures !FullMatch(items[i])
          {
            if i < |init| {
              assert items[i] == init[i];
            }
          }
        }
      } else {
        var i :| 0 <= i < |init| && FullMatch(init[i]);
        assert items[i] == init[i];
      }
    }
  }

  lemma RangeListDefault(arg: Option<string>)
    ensures RangeList(arg) != []
    ensures arg.None? ==> RangeList(arg) == [DefaultRange]
    ensures arg.Some? ==>
      var items := SplitOn(arg.value, ',');
      (RangeList(arg) == Matched(items) <==> exists i :: 0 <= i < |items| && FullMatch(items[i]))
    ensures arg.Some? ==>
      var items := SplitOn(arg.value, ',');
      (forall i :: 0 <= i < |items| ==> !FullMatch(items[i])) ==> RangeList(arg) == [DefaultRange]
  {
    if arg.Some? {
      var items := SplitOn(arg.value, ',');
      NoMatchDefault(items);
    }
  }

  /** `10:20+3` is the range from line 10 to line 20, three paths. */
  lemma FullItemExample()
    ensures ParseItem("10:20+3") == Some(Range(10, Some(20), Some(3)))
  {
    var r := Range(10, Some(20), Some(3));
    assert DecimalText(10) == "10";
    assert DecimalText(20) == "20";
    assert DecimalText(3) == "3";
    assert Format(r) == "10:20+3";
    RangeRoundTrip(r);
  }

  /** An item that does not start with a digit, or whose `:` has no digits
      after it, matches nothing. */
  lemma RejectedItemExample()
    ensures ParseItem("x") == None
    ensures ParseItem("5:+2") == None
  {
    assert DigitRun("x") == [];
    var s := "5:+2";
    assert DigitRun(s) == "5" by {
      DigitRunOf("5", ":+2");
      assert s == "5" + ":+2";
    }
    assert s[1..] == ":+2";
    assert DigitRun(s[1..][1..]) == [];
  }

  /** Of three items, only the one that matches contributes a range. */
  lemma MatchedFirstOfThree(a: string, b: string, c: string)
    requires ParseItem(a).Some? && ParseItem(b).None? && ParseItem(c).None?
    ensures Matched([a, b, c]) == [ParseItem(a).value]
  {
    var items := [a, b, c];
    assert items[..0] == [] && items[..3] == items;
    MatchedStep(items, 0);
    MatchedStep(items, 1);
    MatchedStep(items, 2);
  }

  /** The items `10:20+3`, `x` and `5:+2` give one range. */
  lemma ItemsExample()
    ensures Matched(["10:20+3", "x", "5:+2"]) == [Range(10, Some(20), Some(3))]
  {
    FullItemExample();
    RejectedItemExample();
    MatchedFirstOfThree("10:20+3", "x", "5:+2");
  }

  /** `-r 10:20+3,x,5:+2` gives the one range `[10, 20, 3]`; the list does
      not fall back to the default. */
  lemma Example()
    ensures RangeList(Some("10:20+3,x,5:+2")) == [Range(10, Some(20), Some(3))]
  {
    ExampleSplit();
    ItemsExample();
  }

  /** `10:20+3,x,5:+2` splits at its commas into three items. */
  lemma ExampleSplit()
    ensures SplitOn("10:20+3,x,5:+2", ',') == ["10:20+3", "x", "5:+2"]
  {
    var a, b, c := "10:20+3", "x", "5:+2";
    SplitOnTwo(a, b, c, ',');
    SplitOnNone(c, ',');
    assert [a, b] + [c] == [a, b, c];
    assert a + [','] + b + [','] + c == "10:20+3,x,5:+2";
  }
}
