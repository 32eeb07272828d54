/** The bar chart data of one timing path: every cell of the launch
    clock, capture clock and data paths becomes a bar coloured by the
    segment class its attribute falls in.  The class is sticky: it is only
    looked up again when the current class's pattern stops matching. */
module TimeBar {
  import opened Wrappers
  import opened OrderedTable
  import opened Patterns

  // --------------------------------------------------------------- palette

  /** `Palette.bar_default`: the grey of unclassified cells. */
  const BarDefault: string := "#caccd1"

  /** The number of colours in `Palette.bar`. */
  const PaletteSize: nat := 26

  /** `Palette.bar[i]`: never the grey of unclassified cells. */
  function PaletteColor(i: nat): (c: string)
    requires i < PaletteSize
    ensures c != BarDefault
  {
    match i
    case 0 => "#84bd00"   case 1 => "#efdf00"   case 2 => "#fe5000"   case 3 => "#e4002b"
    case 4 => "#da1884"   case 5 => "#a51890"   case 6 => "#0077c8"   case 7 => "#008eaa"
    case 8 => "#74d2e7"   case 9 => "#48a9c5"   case 10 => "#0085ad"  case 11 => "#8db9ca"
    case 12 => "#4298b5"  case 13 => "#005670"  case 14 => "#004182"  case 15 => "#44712e"
    case 16 => "#915907"  case 17 => "#b24020"  case 18 => "#dce6f1"  case 19 => "#d7ebce"
    case 20 => "#fce2ba"  case 21 => "#fadfd8"  case 22 => "#0a66c2"  case 23 => "#83941f"
    case 24 => "#e7a33e"  case _ => "#f5987e"
  }

  // ------------------------------------------------------------ parameters

  /** The arguments of `get_time_bar_info`: the cell attribute `aid` the
      classes look at, the default legend tag, the segment classes
      `seg_dict` (tag to pattern, in insertion order), the full-match test,
      the bar types to draw (`l`, `c`, `d`, and `f` for a data bar that
      starts at the launch clock) and the index of the startpoint clock
      pin in the launch path. */
  datatype Params = Params(aid: string, defaultTag: string, seg: Table<Regex>,
                           fullmatch: (Regex, string) -> bool, ptype: set<char>, spin: int)

  /** A path as the bar chart sees it: the launch path (clock and data) and
      the capture clock path. */
  datatype Path<C> = Path(lpath: seq<C>, cpath: seq<C>)

  /** `seg_dict` is a dict: no tag twice. */
  predicate ValidParams(p: Params) {
    Distinct(p.seg)
  }

  /** `init_tag`: the default tag when it names a class, else None. */
  function InitTag(p: Params): (t: Option<string>)
    ensures t.Some? ==> t.value == p.defaultTag && t.value in Keys(p.seg)
    ensures t.None? ==> p.seg == [] || p.defaultTag !in Keys(p.seg)
  {
    if p.seg != [] && p.defaultTag in Keys(p.seg) then Some(p.defaultTag) else None
  }

  /** `default_color`: grey, except the first palette colour for a
      classless chart of anything but the `cell` attribute. */
  function DefaultColor(p: Params): string {
    if p.seg == [] && p.aid != "cell" then PaletteColor(0) else BarDefault
  }

  /** The colour a legend key gets: a class's palette colour, the palette
      wrapping round after 26 classes, or the default colour, which no
      class gets. */
  function ColorOf(p: Params, key: string): (c: string)
    ensures key !in Keys(p.seg) ==> c == DefaultColor(p)
    ensures key in Keys(p.seg) ==> c != DefaultColor(p)
  {
    match IndexOf(p.seg, key)
    case Some(i) => PaletteColor(i % PaletteSize)
    case None => DefaultColor(p)
  }

  /** The legend each bar starts from, and returns to on a reset: the
      default tag in the default colour while the tag can be None, and
      nothing once there is an `init_tag`. */
  function StartLegend(p: Params): (lg: Table<string>)
    ensures InitTag(p).None? ==> lg == [(p.defaultTag, DefaultColor(p))]
    ensures InitTag(p).Some? ==> lg == []
    ensures InitTag(p).None? ==> p.defaultTag in Keys(lg)
    ensures LegendOk(p, lg)
  {
    assert InitTag(p).None? ==> Keys([(p.defaultTag, DefaultColor(p))])[0] == p.defaultTag;
    if InitTag(p).None? then [(p.defaultTag, DefaultColor(p))] else []
  }

  /** Every legend entry shows its key's colour. */
  predicate LegendOk(p: Params, lg: Table<string>) {
    forall j :: 0 <= j < |lg| ==> lg[j].1 == ColorOf(p, lg[j].0)
  }

  /** `if key not in bar_lg_path: bar_lg_path[key] = bar_palette[key]`. */
  function AddKey(p: Params, lg: Table<string>, key: string): (r: Table<string>)
    requires LegendOk(p, lg)
    ensures LegendOk(p, r)
    ensures key in Keys(r)
    ensures forall k :: k in Keys(lg) ==> k in Keys(r)
  {
    if key in Keys(lg) then lg
    else
      var r := lg + [(key, ColorOf(p, key))];
      assert Keys(r) == Keys(lg) + [key];
      r
  }

  // -------------------------------------------------------- classification

  predicate TagOk(p: Params, tag: Option<string>) {
    tag.None? || tag.value in Keys(p.seg)
  }

  /** The tag of the first class, in insertion order, whose pattern
      full-matches `s`; `fallback` when none does. */
  function FirstMatch(seg: Table<Regex>, fm: (Regex, string) -> bool, s: string,
                      fallback: Option<string>): (r: Option<string>)
    ensures r == fallback || (r.Some? && r.value in Keys(seg))
  {
    if seg == [] then fallback
    else if fm(seg[0].1, s) then Some(seg[0].0)
    else
      var r := FirstMatch(seg[1..], fm, s, fallback);
      assert r != fallback ==> r.value in Keys(seg[1..]) && Keys(seg[1..]) == Keys(seg)[1..];
      r
  }

  /** The pattern of class `tag`. */
  function Pattern(p: Params, tag: string): Regex
    requires tag in Keys(p.seg)
  {
    p.seg[IndexOf(p.seg, tag).value].1
  }

  /** The tag after looking at one cell: kept while its pattern still
      matches, otherwise the first matching class or `init_tag`. */
  function NextTag(p: Params, tag: Option<string>, s: string): (r: Option<string>)
    requires TagOk(p, tag)
    ensures TagOk(p, r)
    ensures InitTag(p).Some? ==> r.Some?
  {
    if p.seg == [] then tag
    else if tag.None? || !p.fullmatch(Pattern(p, tag.value), s) then FirstMatch(p.seg, p.fullmatch, s, InitTag(p))
    else tag
  }

  /** The inner loop of the classification: the classes are tried in order
      and the first match wins. */
  method FindTag(p: Params, s: string) returns (newTag: Option<string>)
    ensures newTag == FirstMatch(p.seg, p.fullmatch, s, InitTag(p))
  {
    newTag := InitTag(p);
    var i := 0;
    while i < |p.seg|
      invariant 0 <= i <= |p.seg|
      invariant FirstMatch(p.seg, p.fullmatch, s, InitTag(p)) == FirstMatch(p.seg[i..], p.fullmatch, s, InitTag(p))
      invariant newTag == InitTag(p)
    {
      assert p.seg[i..][1..] == p.seg[i + 1..];
      if p.fullmatch(p.seg[i].1, s) {
        newTag := Some(p.seg[i].0);
        return;
      }
      i := i + 1;
    }
  }

  // ------------------------------------------------------------- one bar

  /** The lists of one bar: its cells, their colours, hatches and edge
      colours, and its legend (tag to colour, in order of appearance). */
  datatype Bar<C> = Bar(ce: seq<C>, c: seq<string>, ha: seq<string>, ec: seq<string>, lg: Table<string>)

  /** What the scan of one path carries from cell to cell: the sticky tag,
      the bar so far, and the index of the startpoint bar once seen. */
  datatype Scan<C> = Scan(tag: Option<string>, bar: Bar<C>, dsp: Option<nat>)

  function EmptyBar<C>(p: Params): Bar<C> {
    Bar([], [], [], [], StartLegend(p))
  }

  /** The key a tag is shown under in the legend. */
  function LegendKey(p: Params, tag: Option<string>): string {
    if tag.None? then p.defaultTag else tag.value
  }

  /** What the scan keeps true: the tag names a class, is never None once
      there is an `init_tag`, the default tag is in the legend whenever the
      tag can be None, and every legend entry has its key's colour. */
  predicate Inv<C>(p: Params, st: Scan<C>) {
    && TagOk(p, st.tag)
    && (InitTag(p).Some? ==> st.tag.Some?)
    && (InitTag(p).None? ==> p.defaultTag in Keys(st.bar.lg))
    && LegendOk(p, st.bar.lg)
  }

  /** Whether the bar of type `ty` is started afresh at cell `cid`. */
  predicate ResetAt(p: Params, ty: char, cid: int) {
    cid == p.spin && ty == 'd' && 'f' !in p.ptype
  }

  /** The hatch and edge colour of cell `cid`: the startpoint of the data
      bar is hatched and edged blue. */
  function Hatch(p: Params, ty: char, cid: int): string {
    if cid == p.spin && ty == 'd' then "/" else ""
  }

  function Edge(p: Params, ty: char, cid: int): string {
    if cid == p.spin && ty == 'd' then "b" else "k"
  }

  /** The colour of `key` in a legend that has it. */
  function Lookup(lg: Table<string>, key: string): string
    requires key in Keys(lg)
  {
    lg[IndexOf(lg, key).value].1
  }

  /** One cell of the scan of a bar of type `ty`. */
  function Step<C>(p: Params, attr: C -> string, ty: char, cid: nat, cell: C, st: Scan<C>): (r: Scan<C>)
    requires Inv(p, st)
    ensures Inv(p, r)
  {
    var tag := NextTag(p, st.tag, attr(cell));
    var bar := if ResetAt(p, ty, cid) then EmptyBar(p) else st.bar;
    var key := LegendKey(p, tag);
    assert key !in Keys(bar.lg) ==> key in Keys(p.seg);
    var lg := AddKey(p, bar.lg, key);
    var color := Lookup(lg, key);
    var mark := cid == p.spin && ty == 'd';
    Scan(tag,
         Bar(bar.ce + [cell], bar.c + [color],
             bar.ha + [Hatch(p, ty, cid)], bar.ec + [Edge(p, ty, cid)], lg),
         if mark then Some(|bar.ha|) else st.dsp)
  }

  function StartScan<C>(p: Params): (r: Scan<C>)
    ensures Inv(p, r)
  {
    Scan(InitTag(p), EmptyBar(p), None)
  }

  /** The scan of the cells of a bar of type `ty`. */
  function ScanCells<C>(p: Params, attr: C -> string, ty: char, cells: seq<C>): (r: Scan<C>)
    ensures Inv(p, r)
  {
    if cells == [] then StartScan(p)
    else Step(p, attr, ty, |cells| - 1, cells[|cells| - 1], ScanCells(p, attr, ty, cells[..|cells| - 1]))
  }

  /** The tag after the last of `cells`, from `init_tag` on. */
  function TagAfter<C>(p: Params, attr: C -> string, cells: seq<C>): (t: Option<string>)
    ensures TagOk(p, t)
  {
    if cells == [] then InitTag(p)
    else NextTag(p, TagAfter(p, attr, cells[..|cells| - 1]), attr(cells[|cells| - 1]))
  }

  /** One pass of the cell loop of `get_time_bar_info`: classify the cell,
      restart the bar at the startpoint of a data-only bar, then append the
      cell with its colour, hatch and edge colour. */
  method VisitCell<C>(p: Params, attr: C -> string, ty: char, cid: nat, cell: C, st: Scan<C>)
    returns (r: Scan<C>)
    requires Inv(p, st)
    ensures r == Step(p, attr, ty, cid, cell, st)
  {
    var tag := st.tag;
    var lvCe, lvC, lvHa, lvEc, lg := st.bar.ce, st.bar.c, st.bar.ha, st.bar.ec, st.bar.lg;
    var dsp := st.dsp;
    var s := attr(cell);
    if p.seg != [] && (tag.None? || !p.fullmatch(Pattern(p, tag.value), s)) {
      tag := FindTag(p, s);
    }
    if ResetAt(p, ty, cid) {
      lg := StartLegend(p);
      lvCe, lvC, lvHa, lvEc := [], [], [], [];
    }
    var key := LegendKey(p, tag);
    lg := AddKey(p, lg, key);
    lvCe := lvCe + [cell];
    lvC := lvC + [Lookup(lg, key)];
    if cid == p.spin && ty == 'd' {
      dsp := Some(|lvHa|);
      lvHa := lvHa + ["/"];
      lvEc := lvEc + ["b"];
    } else {
      lvHa := lvHa + [""];
      lvEc := lvEc + ["k"];
    }
    r := Scan(tag, Bar(lvCe, lvC, lvHa, lvEc, lg), dsp);
  }

  /** The cell loop of `get_time_bar_info` for one bar type. */
  method ScanPath<C>(p: Params, attr: C -> string, ty: char, cells: seq<C>) returns (bar: Bar<C>, dsp: Option<nat>)
    ensures Scan(ScanCells(p, attr, ty, cells).tag, bar, dsp) == ScanCells(p, attr, ty, cells)
  {
    var st := StartScan(p);
    var cid := 0;
    while cid < |cells|
      invariant 0 <= cid <= |cells|
      invariant st == ScanCells(p, attr, ty, cells[..cid])
    {
      assert cells[..cid + 1][..cid] == cells[..cid];
      st := VisitCell(p, attr, ty, cid, cells[cid], st);
      cid := cid + 1;
    }
    assert cells[..|cells|] == cells;
    bar, dsp := st.bar, st.dsp;
  }

  // ------------------------------------------------------------ the chart

  /** `m_bar_lg_path`: with classes, the default tag first, then the classes
      the bar used, in class order; without classes, the bar's own legend. */
  function MergedLegend(p: Params, lg: Table<string>): (m: Table<string>)
    ensures p.seg == [] ==> m == lg
    ensures p.seg != [] ==> m != [] && m[0].0 == p.defaultTag
  {
    if p.seg == [] then lg
    else
      MergeKeysFirst(lg, Keys(p.seg), [(p.defaultTag, DefaultColor(p))]);
      MergeKeys(lg, Keys(p.seg), [(p.defaultTag, DefaultColor(p))])
  }

  /** The merge only assigns, so the first key stays first. */
  lemma {:induction false} MergeKeysFirst(lg: Table<string>, keys: seq<string>, m: Table<string>)
    requires m != []
    ensures MergeKeys(lg, keys, m) != [] && MergeKeys(lg, keys, m)[0].0 == m[0].0
    decreases |keys|
  {
    if keys != [] {
      var m' := if keys[0] in Keys(lg) then Put(m, keys[0], Lookup(lg, keys[0])) else m;
      if keys[0] in Keys(lg) {
        PutKeys(m, keys[0], Lookup(lg, keys[0]));
        assert Keys(m')[0] == Keys(m)[0];
      }
      MergeKeysFirst(lg, keys[1..], m');
    }
  }

  /** `for key in keys: if key in lg: m[key] = lg[key]`, from `m`. */
  function MergeKeys(lg: Table<string>, keys: seq<string>, m: Table<string>): Table<string>
    decreases |keys|
  {
    if keys == [] then m
    else
      var m' := if keys[0] in Keys(lg) then Put(m, keys[0], Lookup(lg, keys[0])) else m;
      MergeKeys(lg, keys[1..], m')
  }

  /** The legend merge as the source runs it. */
  method MergeLegend(p: Params, lg: Table<string>) returns (m: Table<string>)
    ensures m == MergedLegend(p, lg)
  {
    if p.seg == [] {
      return lg;
    }
    m := [(p.defaultTag, DefaultColor(p))];
    var keys := Keys(p.seg);
    var i := 0;
    while i < |keys|
      invariant 0 <= i <= |keys|
      invariant MergeKeys(lg, keys[i..], m) == MergedLegend(p, lg)
    {
      assert keys[i..][1..] == keys[i + 1..];
      if keys[i] in Keys(lg) {
        m := Put(m, keys[i], Lookup(lg, keys[i]));
      }
      i := i + 1;
    }
  }

  /** The keys of `keys` that the legend `lg` holds and `ex` does not, in
      the order of `keys`. */
  function UsedKeys(keys: seq<string>, lg: Table<string>, ex: seq<string>): seq<string> {
    if keys == [] then []
    else (if keys[0] in Keys(lg) && keys[0] !in ex then [keys[0]] else []) + UsedKeys(keys[1..], lg, ex)
  }

  /** The keys kept are exactly the listed keys the legend holds and `ex`
      does not. */
  lemma {:induction false} UsedKeysMembers(keys: seq<string>, lg: Table<string>, ex: seq<string>, k: string)
    ensures k in UsedKeys(keys, lg, ex) <==> k in keys && k in Keys(lg) && k !in ex
    decreases |keys|
  {
    if keys != [] {
      UsedKeysMembers(keys[1..], lg, ex, k);
      assert k in keys <==> k == keys[0] || k in keys[1..];
    }
  }

  /** No key twice. */
  predicate DistinctKeys(ks: seq<string>) {
    forall i, j :: 0 <= i < j < |ks| ==> ks[i] != ks[j]
  }

  /** Excluding a key the list does not hold changes nothing. */
  lemma {:induction false} UsedKeysExclude(keys: seq<string>, lg: Table<string>, ex: seq<string>, x: string)
    requires x !in keys
    ensures UsedKeys(keys, lg, ex + [x]) == UsedKeys(keys, lg, ex)
    decreases |keys|
  {
    if keys != [] {
      assert keys[0] != x;
      UsedKeysExclude(keys[1..], lg, ex, x);
    }
  }

  /** One step of the merge: `m[k0] = lg[k0]` when the legend has `k0`. */
  function MergeOne(lg: Table<string>, k0: string, m: Table<string>): Table<string> {
    if k0 in Keys(lg) then Put(m, k0, Lookup(lg, k0)) else m
  }

  lemma MergeKeysUnfold(lg: Table<string>, keys: seq<string>, m: Table<string>)
    requires keys != []
    ensures MergeKeys(lg, keys, m) == MergeKeys(lg, keys[1..], MergeOne(lg, keys[0], m))
  {
  }

  /** The merge keeps the keys unique. */
  lemma {:induction false} MergeKeysDistinct(lg: Table<string>, keys: seq<string>, m: Table<string>)
    requires Distinct(m)
    ensures Distinct(MergeKeys(lg, keys, m))
    decreases |keys|
  {
    if keys != [] {
      MergeKeysUnfold(lg, keys, m);
      if keys[0] in Keys(lg) {
        PutDistinct(m, keys[0], Lookup(lg, keys[0]));
      }
      MergeKeysDistinct(lg, keys[1..], MergeOne(lg, keys[0], m));
    }
  }

  /** The keys after merging the first key, followed by the new keys of
      the rest, are the keys before it followed by the new keys of all. */
  lemma MergeOneKeys(lg: Table<string>, keys: seq<string>, m: Table<string>)
    requires keys != [] && keys[0] !in keys[1..]
    ensures var m' := MergeOne(lg, keys[0], m);
      Keys(m') + UsedKeys(keys[1..], lg, Keys(m')) == Keys(m) + UsedKeys(keys, lg, Keys(m))
  {
    if keys[0] !in Keys(lg) {
      MergeOneSkipped(lg, keys, m);
    } else if keys[0] in Keys(m) {
      MergeOneExisting(lg, keys, m);
    } else {
      MergeOneAppended(lg, keys, m);
    }
  }

  /** A key the legend lacks is skipped. */
  lemma MergeOneSkipped(lg: Table<string>, keys: seq<string>, m: Table<string>)
    requires keys != [] && keys[0] !in Keys(lg)
    ensures var m' := MergeOne(lg, keys[0], m);
      Keys(m') + UsedKeys(keys[1..], lg, Keys(m')) == Keys(m) + UsedKeys(keys, lg, Keys(m))
  {
    MergeOneKeysOf(lg, keys[0], m);
    UsedKeysSkip(keys, lg, Keys(m));
  }

  /** A key already merged keeps its place. */
  lemma MergeOneExisting(lg: Table<string>, keys: seq<string>, m: Table<string>)
    requires keys != [] && keys[0] in Keys(lg) && keys[0] in Keys(m)
    ensures var m' := MergeOne(lg, keys[0], m);
      Keys(m') + UsedKeys(keys[1..], lg, Keys(m')) == Keys(m) + UsedKeys(keys, lg, Keys(m))
  {
    MergeOneKeysOf(lg, keys[0], m);
    UsedKeysSkip(keys, lg, Keys(m));
  }

  /** A new key the legend holds is appended. */
  lemma MergeOneAppended(lg: Table<string>, keys: seq<string>, m: Table<string>)
    requires keys != [] && keys[0] in Keys(lg) && keys[0] !in Keys(m) && keys[0] !in keys[1..]
    ensures var m' := MergeOne(lg, keys[0], m);
      Keys(m') + UsedKeys(keys[1..], lg, Keys(m')) == Keys(m) + UsedKeys(keys, lg, Keys(m))
  {
    var km := Keys(m);
    MergeOneKeysOf(lg, keys[0], m);
    UsedKeysHead(keys, lg, km);
    UsedKeysExclude(keys[1..], lg, km, keys[0]);
    ConcatShift(km, keys[0], UsedKeys(keys[1..], lg, km));
  }

  /** The keys after one merge step. */
  lemma MergeOneKeysOf(lg: Table<string>, k0: string, m: Table<string>)
    ensures Keys(MergeOne(lg, k0, m)) == if k0 in Keys(lg) && k0 !in Keys(m) then Keys(m) + [k0] else Keys(m)
  {
    if k0 in Keys(lg) {
      PutKeys(m, k0, Lookup(lg, k0));
    }
  }

  /** `UsedKeys` of a non-empty list, unfolded once. */
  lemma UsedKeysHead(keys: seq<string>, lg: Table<string>, ex: seq<string>)
    requires keys != []
    ensures UsedKeys(keys, lg, ex)
         == (if keys[0] in Keys(lg) && keys[0] !in ex then [keys[0]] else []) + UsedKeys(keys[1..], lg, ex)
  {
  }

  /** A key that is not kept adds nothing. */
  lemma UsedKeysSkip(keys: seq<string>, lg: Table<string>, ex: seq<string>)
    requires keys != [] && !(keys[0] in Keys(lg) && keys[0] !in ex)
    ensures UsedKeys(keys, lg, ex) == UsedKeys(keys[1..], lg, ex)
  {
    var u := UsedKeys(keys[1..], lg, ex);
    assert [] + u == u;
  }

  lemma ConcatShift(a: seq<string>, x: string, b: seq<string>)
    ensures a + [x] + b == a + ([x] + b)
  {
  }

  /** The keys of `m` stay where they are; the new keys the legend holds
      follow in the order of `keys`. */
  lemma {:induction false} MergeKeysOrder(lg: Table<string>, keys: seq<string>, m: Table<string>)
    requires DistinctKeys(keys)
    ensures Keys(MergeKeys(lg, keys, m)) == Keys(m) + UsedKeys(keys, lg, Keys(m))
    decreases |keys|
  {
    if keys == [] {
      assert Keys(m) + [] == Keys(m);
    } else {
      MergeKeysUnfold(lg, keys, m);
      assert DistinctKeys(keys[1..]);
      assert keys[0] !in keys[1..];
      MergeKeysOrder(lg, keys[1..], MergeOne(lg, keys[0], m));
      MergeOneKeys(lg, keys, m);
    }
  }

  /** Every merged key reads the legend's colour; every other key reads as
      in `m`. */
  lemma {:induction false} MergeKeysGet(lg: Table<string>, keys: seq<string>, m: Table<string>, k: string)
    requires Distinct(m)
    ensures Get(MergeKeys(lg, keys, m), k) == if k in keys && k in Keys(lg) then Some(Lookup(lg, k)) else Get(m, k)
    decreases |keys|
  {
    if keys != [] {
      var k0 := keys[0];
      var m' := MergeOne(lg, k0, m);
      MergeKeysUnfold(lg, keys, m);
      if k0 in Keys(lg) {
        PutDistinct(m, k0, Lookup(lg, k0));
        PutGet(m, k0, Lookup(lg, k0), k);
      }
      MergeKeysGet(lg, keys[1..], m', k);
      assert k in keys <==> k == k0 || k in keys[1..];
    }
  }

  /** `m_bar_lg_path` in closed form.  Without classes it is the bar's own
      legend.  With classes it starts with the default tag; the other keys
      are the classes the bar used, in class order; a class the bar used
      keeps the bar's colour, and the default tag otherwise shows the
      default colour. */
  lemma MergedLegendSpec(p: Params, lg: Table<string>)
    requires ValidParams(p)
    ensures p.seg == [] ==> MergedLegend(p, lg) == lg
    ensures p.seg != [] ==>
      var m := MergedLegend(p, lg);
      && Distinct(m)
      && Keys(m) == [p.defaultTag] + UsedKeys(Keys(p.seg), lg, [p.defaultTag])
      && (forall k :: k in Keys(m) <==> k == p.defaultTag || (k in Keys(p.seg) && k in Keys(lg)))
      && (forall k :: Get(m, k) == if k in Keys(p.seg) && k in Keys(lg) then Some(Lookup(lg, k))
                                 else if k == p.defaultTag then Some(DefaultColor(p))
                                 else None)
  {
    if p.seg != [] {
      var m0 := [(p.defaultTag, DefaultColor(p))];
      assert Keys(m0) == [p.defaultTag];
      assert DistinctKeys(Keys(p.seg));
      MergeKeysDistinct(lg, Keys(p.seg), m0);
      MergeKeysOrder(lg, Keys(p.seg), m0);
      forall k
        ensures k in Keys(MergedLegend(p, lg)) <==> k == p.defaultTag || (k in Keys(p.seg) && k in Keys(lg))
      {
        UsedKeysMembers(Keys(p.seg), lg, [p.defaultTag], k);
      }
      forall k
        ensures Get(MergedLegend(p, lg), k) == if k in Keys(p.seg) && k in Keys(lg) then Some(Lookup(lg, k))
                                              else if k == p.defaultTag then Some(DefaultColor(p))
                                              else None
      {
        MergeKeysGet(lg, Keys(p.seg), m0, k);
        assert Get(m0, k) == if k == p.defaultTag then Some(DefaultColor(p)) else None;
      }
    }
  }

  /** `bar_info`: one list per drawn bar, in the order `l`, `c`, `d`, and
      the position of the startpoint bar in the data bar. */
  datatype BarInfo<C> = BarInfo(ce: seq<seq<C>>, c: seq<seq<string>>, ha: seq<seq<string>>,
                                ec: seq<seq<string>>, lg: seq<Table<string>>, did: Option<nat>, dsp: Option<nat>)

  /** The cells a bar of type `ty` is drawn from. */
  function CellsOf<C>(path: Path<C>, ty: char): seq<C> {
    if ty == 'c' then path.cpath else path.lpath
  }

  /** `bar_info` after the bar of type `ty`, if drawn: one more entry in
      every list, and `did` and `dsp` either kept or both set, `did` to the
      index of the new bar. */
  function AddBar<C>(p: Params, attr: C -> string, path: Path<C>, ty: char, info: BarInfo<C>): (r: BarInfo<C>)
    ensures var n := if ty in p.ptype then 1 else 0;
      && |r.ce| == |info.ce| + n && |r.c| == |info.c| + n && |r.ha| == |info.ha| + n
      && |r.ec| == |info.ec| + n && |r.lg| == |info.lg| + n
    ensures (r.did == info.did && r.dsp == info.dsp)
            || (ty in p.ptype && r.did == Some(|info.ha|) && r.dsp.Some?)
  {
    if ty !in p.ptype then info
    else
      var sc := ScanCells(p, attr, ty, CellsOf(path, ty));
      BarInfo(info.ce + [sc.bar.ce], info.c + [sc.bar.c], info.ha + [sc.bar.ha], info.ec + [sc.bar.ec],
              info.lg + [MergedLegend(p, sc.bar.lg)],
              if sc.dsp.Some? then Some(|info.ha|) else info.did,
              if sc.dsp.Some? then sc.dsp else info.dsp)
  }

  /** `bar_info` after the bar types `tys`: its lists stay aligned, one
      entry per drawn bar, and `did`, when set, indexes a drawn bar and
      comes with `dsp`. */
  function InfoOf<C>(p: Params, attr: C -> string, path: Path<C>, tys: seq<char>): (r: BarInfo<C>)
    ensures |r.ce| == |r.ha| && |r.c| == |r.ha| && |r.ec| == |r.ha| && |r.lg| == |r.ha|
    ensures |r.ha| <= |tys|
    ensures r.did.Some? <==> r.dsp.Some?
    ensures r.did.Some? ==> r.did.value < |r.ha|
  {
    if tys == [] then BarInfo([], [], [], [], [], None, None)
    else AddBar(p, attr, path, tys[|tys| - 1], InfoOf(p, attr, path, tys[..|tys| - 1]))
  }

  /** The bar types in the order the chart draws them. */
  const BarTypes: seq<char> := ['l', 'c', 'd']

  /** One pass of the loop over the bar types: scan the path of type `ty`,
      if drawn, and append its lists and merged legend. */
  method AppendBar<C>(p: Params, attr: C -> string, path: Path<C>, ty: char, info: BarInfo<C>)
    returns (r: BarInfo<C>)
    ensures r == AddBar(p, attr, path, ty, info)
  {
    r := info;
    if ty in p.ptype {
      var bar, dsp := ScanPath(p, attr, ty, CellsOf(path, ty));
      var lg := MergeLegend(p, bar.lg);
      if dsp.Some? {
        r := r.(did := Some(|info.ha|), dsp := dsp);
      }
      r := r.(ce := info.ce + [bar.ce], c := info.c + [bar.c], ha := info.ha + [bar.ha],
              ec := info.ec + [bar.ec], lg := info.lg + [lg]);
    }
  }

  /** `get_time_bar_info`. */
  method GetTimeBarInfo<C>(p: Params, attr: C -> string, path: Path<C>) returns (info: BarInfo<C>)
    ensures info == InfoOf(p, attr, path, BarTypes)
  {
    info := BarInfo([], [], [], [], [], None, None);
    var k := 0;
    assert BarTypes[..0] == [];
    while k < |BarTypes|
      invariant 0 <= k <= |BarTypes|
      invariant info == InfoOf(p, attr, path, BarTypes[..k])
    {
      assert BarTypes[..k + 1][..k] == BarTypes[..k];
      InfoOfLast(p, attr, path, BarTypes[..k + 1]);
      info := AppendBar(p, attr, path, BarTypes[k], info);
      k := k + 1;
    }
    assert BarTypes[..|BarTypes|] == BarTypes;
  }

  /** The types of `tys` that are drawn, in the order of `tys`. */
  function Drawn(p: Params, tys: seq<char>): (ds: seq<char>)
    ensures forall t :: t in ds <==> t in tys && t in p.ptype
  {
    if tys == [] then []
    else
      var n := |tys| - 1;
      assert tys == tys[..n] + [tys[n]];
      Drawn(p, tys[..n]) + (if tys[n] in p.ptype then [tys[n]] else [])
  }

  /** The bar drawn for type `ty`, before its legend is merged. */
  function BarOf<C>(p: Params, attr: C -> string, path: Path<C>, ty: char): Bar<C> {
    ScanCells(p, attr, ty, CellsOf(path, ty)).bar
  }

  /** `bar_info` holds one entry per drawn type, in the order of the types:
      that type's cells, colours, hatches and edge colours, and its merged
      legend. */
  lemma {:induction false} InfoOfBars<C>(p: Params, attr: C -> string, path: Path<C>, tys: seq<char>)
    ensures var info := InfoOf(p, attr, path, tys);
      var ds := Drawn(p, tys);
      && |info.ce| == |ds| && |info.c| == |ds| && |info.ha| == |ds| && |info.ec| == |ds| && |info.lg| == |ds|
      && forall k :: 0 <= k < |ds| ==>
           && info.ce[k] == BarOf(p, attr, path, ds[k]).ce
           && info.c[k] == BarOf(p, attr, path, ds[k]).c
           && info.ha[k] == BarOf(p, attr, path, ds[k]).ha
           && info.ec[k] == BarOf(p, attr, path, ds[k]).ec
           && info.lg[k] == MergedLegend(p, BarOf(p, attr, path, ds[k]).lg)
    decreases |tys|
  {
    if tys != [] {
      InfoOfBars(p, attr, path, tys[..|tys| - 1]);
    }
  }

  /** The last type of `tys` is the last one added. */
  lemma InfoOfLast<C>(p: Params, attr: C -> string, path: Path<C>, tys: seq<char>)
    requires tys != []
    ensures InfoOf(p, attr, path, tys) == AddBar(p, attr, path, tys[|tys| - 1], InfoOf(p, attr, path, tys[..|tys| - 1]))
  {
  }

  /** What one bar type does to `did` and `dsp`: a drawn bar that reaches
      the startpoint sets them, anything else leaves them. */
  lemma AddBarMarks<C>(p: Params, attr: C -> string, path: Path<C>, ty: char, info: BarInfo<C>)
    ensures var r := AddBar(p, attr, path, ty, info);
      var d := DspAt(p, ty, |CellsOf(path, ty)|);
      && r.did == (if ty in p.ptype && d.Some? then Some(|info.ha|) else info.did)
      && r.dsp == (if ty in p.ptype && d.Some? then d else info.dsp)
  {
    if ty in p.ptype {
      ScanDsp(p, attr, ty, CellsOf(path, ty));
    }
  }

  /** Neither the launch nor the capture bar records a startpoint. */
  lemma ClockBarsNoDid<C>(p: Params, attr: C -> string, path: Path<C>)
    ensures InfoOf(p, attr, path, ['l', 'c']).did == None
    ensures InfoOf(p, attr, path, ['l', 'c']).dsp == None
  {
    var i0 := InfoOf(p, attr, path, []);
    InfoOfLast(p, attr, path, ['l']);
    assert ['l'][..0] == [];
    var i1 := InfoOf(p, attr, path, ['l']);
    AddBarMarks(p, attr, path, 'l', i0);
    assert i1.did == None && i1.dsp == None;
    InfoOfLast(p, attr, path, ['l', 'c']);
    assert ['l', 'c'][..1] == ['l'];
    AddBarMarks(p, attr, path, 'c', i1);
  }

  /** `get_time_bar_info`'s result: one bar per drawn type, in the order
      `l`, `c`, `d`, each with its merged legend.  `did` is set exactly when
      the data bar is drawn and the startpoint pin is on the launch path,
      and is then the data bar's index, the number of bars drawn before it;
      `dsp` is the startpoint's place in the data bar. */
  lemma GetTimeBarInfoSpec<C>(p: Params, attr: C -> string, path: Path<C>)
    ensures var info := InfoOf(p, attr, path, BarTypes);
      var ds := Drawn(p, BarTypes);
      && (forall t :: t in ds <==> t in p.ptype && t in "lcd")
      && (forall i, j :: 0 <= i < j < |ds| ==> IndexIn(ds[i]) < IndexIn(ds[j]))
      && |info.ce| == |ds| && |info.lg| == |ds|
      && (forall k :: 0 <= k < |ds| ==>
            info.ce[k] == BarOf(p, attr, path, ds[k]).ce
            && info.lg[k] == MergedLegend(p, BarOf(p, attr, path, ds[k]).lg))
      && (info.did.Some? <==> 'd' in p.ptype && 0 <= p.spin < |path.lpath|)
      && (info.did.Some? ==> info.did.value == |Drawn(p, ['l', 'c'])| && info.did.value + 1 == |ds|
                             && ds[info.did.value] == 'd')
      && info.dsp == (if 'd' in p.ptype then DspAt(p, 'd', |path.lpath|) else None)
  {
    InfoOfBars(p, attr, path, BarTypes);
    DataBarMarks(p, attr, path);
    DrawnOrder(p);
  }

  /** `did` and `dsp` come from the data bar alone: `did` is the number of
      clock bars drawn before it. */
  lemma DataBarMarks<C>(p: Params, attr: C -> string, path: Path<C>)
    ensures var info := InfoOf(p, attr, path, BarTypes);
      && (info.did.Some? <==> 'd' in p.ptype && 0 <= p.spin < |path.lpath|)
      && (info.did.Some? ==> info.did.value == |Drawn(p, ['l', 'c'])|)
      && info.dsp == (if 'd' in p.ptype then DspAt(p, 'd', |path.lpath|) else None)
  {
    var lc := InfoOf(p, attr, path, ['l', 'c']);
    InfoOfBars(p, attr, path, ['l', 'c']);
    ClockBarsNoDid(p, attr, path);
    InfoOfLast(p, attr, path, BarTypes);
    assert BarTypes[..2] == ['l', 'c'];
    AddBarMarks(p, attr, path, 'd', lc);
  }

  /** The drawn types come in the order `l`, `c`, `d`, the data bar last. */
  lemma DrawnOrder(p: Params)
    ensures var ds := Drawn(p, BarTypes);
      && Drawn(p, BarTypes) == Drawn(p, ['l', 'c']) + (if 'd' in p.ptype then ['d'] else [])
      && (forall t :: t in ds <==> t in p.ptype && t in "lcd")
      && (forall i, j :: 0 <= i < j < |ds| ==> IndexIn(ds[i]) < IndexIn(ds[j]))
  {
    var a: seq<char> := if 'l' in p.ptype then ['l'] else [];
    var b: seq<char> := if 'c' in p.ptype then ['c'] else [];
    var d: seq<char> := if 'd' in p.ptype then ['d'] else [];
    assert BarTypes[..2] == ['l', 'c'];
    assert ['l', 'c'][..1] == ['l'];
    assert ['l'][..0] == [];
    assert BarTypes == "lcd";
    assert Drawn(p, []) == [];
    assert Drawn(p, ['l']) == a;
    assert Drawn(p, ['l', 'c']) == a + b;
    var ds := a + b + d;
    assert Drawn(p, BarTypes) == ds;
    forall i, j | 0 <= i < j < |ds|
      ensures IndexIn(ds[i]) < IndexIn(ds[j])
    {
      if i < |a| {
        assert ds[i] == 'l' && ds[j] != 'l';
      } else {
        assert i < |a + b| && ds[i] == 'c' && j == |a + b| && ds[j] == 'd';
      }
    }
  }

  /** The position of a bar type in the drawing order `l`, `c`, `d`. */
  function IndexIn(t: char): nat {
    if t == 'l' then 0 else if t == 'c' then 1 else 2
  }

  // --------------------------------------------------------------- lemmas

  /** The classes are tried in insertion order and the first that matches
      wins. */
  lemma {:induction false} FirstMatchFirst(seg: Table<Regex>, fm: (Regex, string) -> bool, s: string,
                                           fallback: Option<string>, j: nat)
    requires j < |seg| && fm(seg[j].1, s)
    requires forall i :: 0 <= i < j ==> !fm(seg[i].1, s)
    ensures FirstMatch(seg, fm, s, fallback) == Some(seg[j].0)
  {
    if j > 0 {
      assert !fm(seg[0].1, s);
      FirstMatchFirst(seg[1..], fm, s, fallback, j - 1);
    }
  }

  /** When no class matches, the fallback is used. */
  lemma {:induction false} FirstMatchNone(seg: Table<Regex>, fm: (Regex, string) -> bool, s: string,
                                          fallback: Option<string>)
    requires forall i :: 0 <= i < |seg| ==> !fm(seg[i].1, s)
    ensures FirstMatch(seg, fm, s, fallback) == fallback
  {
    if seg != [] {
      assert !fm(seg[0].1, s);
      FirstMatchNone(seg[1..], fm, s, fallback);
    }
  }

  /** A tag whose pattern still matches the cell is kept. */
  lemma StickyKeeps(p: Params, t: string, s: string)
    requires t in Keys(p.seg) && p.fullmatch(Pattern(p, t), s)
    ensures NextTag(p, Some(t), s) == Some(t)
  {
  }

  /** A tag is kept even when an earlier class matches the cell too: the
      stickiness, not the class order, decides. */
  lemma StickyBeatsOrder(p: Params, t: string, s: string)
    requires t in Keys(p.seg) && p.fullmatch(Pattern(p, t), s)
    requires p.seg != [] && p.seg[0].0 != t && p.fullmatch(p.seg[0].1, s)
    ensures NextTag(p, Some(t), s) == Some(t)
    ensures FirstMatch(p.seg, p.fullmatch, s, InitTag(p)) == Some(p.seg[0].0)
  {
  }

  /** Once the tag's pattern fails, or there is no tag yet, the classes are
      looked up afresh: the first match, or `init_tag` when none matches. */
  lemma Reclassify(p: Params, tag: Option<string>, s: string)
    requires TagOk(p, tag) && p.seg != []
    requires tag.None? || !p.fullmatch(Pattern(p, tag.value), s)
    ensures forall j :: 0 <= j < |p.seg| && p.fullmatch(p.seg[j].1, s)
                        && (forall i :: 0 <= i < j ==> !p.fullmatch(p.seg[i].1, s))
                        ==> NextTag(p, tag, s) == Some(p.seg[j].0)
    ensures (forall i :: 0 <= i < |p.seg| ==> !p.fullmatch(p.seg[i].1, s)) ==> NextTag(p, tag, s) == InitTag(p)
  {
    forall j | 0 <= j < |p.seg| && p.fullmatch(p.seg[j].1, s)
               && (forall i :: 0 <= i < j ==> !p.fullmatch(p.seg[i].1, s))
      ensures NextTag(p, tag, s) == Some(p.seg[j].0)
    {
      FirstMatchFirst(p.seg, p.fullmatch, s, InitTag(p), j);
    }
    if forall i :: 0 <= i < |p.seg| ==> !p.fullmatch(p.seg[i].1, s) {
      FirstMatchNone(p.seg, p.fullmatch, s, InitTag(p));
    }
  }

  /** A run of cells that all match the current class keeps that class
      throughout. */
  lemma {:induction false} StickyRun<C>(p: Params, attr: C -> string, cells: seq<C>, k: nat, t: string)
    requires k <= |cells| && t in Keys(p.seg)
    requires TagAfter(p, attr, cells[..k]) == Some(t)
    requires forall i :: k <= i < |cells| ==> p.fullmatch(Pattern(p, t), attr(cells[i]))
    ensures TagAfter(p, attr, cells) == Some(t)
    decreases |cells|
  {
    if |cells| > k {
      var init := cells[..|cells| - 1];
      assert init[..k] == cells[..k];
      StickyRun(p, attr, init, k, t);
    } else {
      assert cells[..k] == cells;
    }
  }

  /** Class `i` is drawn in palette colour `i`, the palette wrapping round
      after 26 classes; a key that is no class gets the default colour. */
  lemma ClassColor(p: Params, i: nat)
    requires ValidParams(p) && i < |p.seg|
    ensures ColorOf(p, p.seg[i].0) == PaletteColor(i % PaletteSize)
  {
    IndexOfDistinct(p.seg, i);
  }

  /** The cell that starts the bar: the startpoint of a data-only bar,
      otherwise the first cell. */
  function BarStart(p: Params, ty: char, n: nat): (r: nat)
    ensures r <= n
  {
    if ty == 'd' && 'f' !in p.ptype && 0 <= p.spin < n then p.spin else 0
  }

  /** The legend colour of a key is the key's colour. */
  lemma LookupColor(p: Params, lg: Table<string>, key: string)
    requires LegendOk(p, lg) && key in Keys(lg)
    ensures Lookup(lg, key) == ColorOf(p, key)
  {
  }

  /** What one cell adds to the bar, with its colour read off the key. */
  lemma StepShape<C>(p: Params, attr: C -> string, ty: char, cid: nat, cell: C, st: Scan<C>)
    requires Inv(p, st)
    ensures var r := Step(p, attr, ty, cid, cell, st);
      var b := if ResetAt(p, ty, cid) then EmptyBar(p) else st.bar;
      var mark := cid == p.spin && ty == 'd';
      && r.tag == NextTag(p, st.tag, attr(cell))
      && r.bar.ce == b.ce + [cell]
      && r.bar.c == b.c + [ColorOf(p, LegendKey(p, r.tag))]
      && r.bar.ha == b.ha + [Hatch(p, ty, cid)]
      && r.bar.ec == b.ec + [Edge(p, ty, cid)]
      && r.dsp == (if mark then Some(|b.ha|) else st.dsp)
  {
    var tag := NextTag(p, st.tag, attr(cell));
    var b := if ResetAt(p, ty, cid) then EmptyBar(p) else st.bar;
    var key := LegendKey(p, tag);
    LookupColor(p, AddKey(p, b.lg, key), key);
  }

  /** The scan's tag is the tag of the last cell. */
  lemma {:induction false} ScanTag<C>(p: Params, attr: C -> string, ty: char, cells: seq<C>)
    ensures ScanCells(p, attr, ty, cells).tag == TagAfter(p, attr, cells)
    decreases |cells|
  {
    if cells != [] {
      ScanTag(p, attr, ty, cells[..|cells| - 1]);
    }
  }

  lemma BarStartStep(p: Params, ty: char, n: nat)
    ensures ResetAt(p, ty, n) ==> BarStart(p, ty, n + 1) == n
    ensures !ResetAt(p, ty, n) ==> BarStart(p, ty, n + 1) == BarStart(p, ty, n)
  {
  }

  lemma SliceStep<C>(cells: seq<C>, n: nat, r: nat, b: seq<C>)
    requires n + 1 == |cells| && r <= n + 1
    requires (r == n && b == []) || (r <= n && b == cells[..n][r..])
    ensures b + [cells[n]] == cells[r..]
  {
  }

  /** The hatches from index `r0` on, extended by the hatch of cell `n`,
      are the hatches from `r` on. */
  lemma HatchRun(p: Params, ty: char, b: seq<string>, n: nat, r0: nat, r: nat)
    requires (r == n && b == []) || (r == r0 && r0 <= n && |b| == n - r0 && forall j :: 0 <= j < |b| ==> b[j] == Hatch(p, ty, r0 + j))
    ensures |b + [Hatch(p, ty, n)]| == n + 1 - r
    ensures forall j :: 0 <= j < |b + [Hatch(p, ty, n)]| ==> (b + [Hatch(p, ty, n)])[j] == Hatch(p, ty, r + j)
  {
  }

  lemma EdgeRun(p: Params, ty: char, b: seq<string>, n: nat, r0: nat, r: nat)
    requires (r == n && b == []) || (r == r0 && r0 <= n && |b| == n - r0 && forall j :: 0 <= j < |b| ==> b[j] == Edge(p, ty, r0 + j))
    ensures |b + [Edge(p, ty, n)]| == n + 1 - r
    ensures forall j :: 0 <= j < |b + [Edge(p, ty, n)]| ==> (b + [Edge(p, ty, n)])[j] == Edge(p, ty, r + j)
  {
  }

  /** A bar holds the cells from its start on. */
  lemma {:induction false} ScanCe<C>(p: Params, attr: C -> string, ty: char, cells: seq<C>)
    ensures ScanCells(p, attr, ty, cells).bar.ce == cells[BarStart(p, ty, |cells|)..]
    decreases |cells|
  {
    if cells != [] {
      var n := |cells| - 1;
      var sc0 := ScanCells(p, attr, ty, cells[..n]);
      ScanCe(p, attr, ty, cells[..n]);
      StepShape(p, attr, ty, n, cells[n], sc0);
      BarStartStep(p, ty, n);
      var b := if ResetAt(p, ty, n) then EmptyBar<C>(p) else sc0.bar;
      SliceStep(cells, n, BarStart(p, ty, n + 1), b.ce);
    }
  }

  /** Each bar has the hatch of its cell: only the startpoint of the data
      bar is hatched. */
  lemma {:induction false} ScanHatch<C>(p: Params, attr: C -> string, ty: char, cells: seq<C>)
    ensures var sc := ScanCells(p, attr, ty, cells);
      var r := BarStart(p, ty, |cells|);
      && |sc.bar.ha| == |cells| - r
      && (forall j :: 0 <= j < |sc.bar.ha| ==> sc.bar.ha[j] == Hatch(p, ty, r + j))
    decreases |cells|
  {
    if cells != [] {
      var n := |cells| - 1;
      var sc0 := ScanCells(p, attr, ty, cells[..n]);
      ScanHatch(p, attr, ty, cells[..n]);
      StepShape(p, attr, ty, n, cells[n], sc0);
      BarStartStep(p, ty, n);
      var b := if ResetAt(p, ty, n) then EmptyBar<C>(p) else sc0.bar;
      HatchRun(p, ty, b.ha, n, BarStart(p, ty, n), BarStart(p, ty, n + 1));
    }
  }

  /** Each bar has the edge colour of its cell: blue for the startpoint of
      the data bar, black elsewhere. */
  lemma {:induction false} ScanEdge<C>(p: Params, attr: C -> string, ty: char, cells: seq<C>)
    ensures var sc := ScanCells(p, attr, ty, cells);
      var r := BarStart(p, ty, |cells|);
      && |sc.bar.ec| == |cells| - r
      && (forall j :: 0 <= j < |sc.bar.ec| ==> sc.bar.ec[j] == Edge(p, ty, r + j))
    decreases |cells|
  {
    if cells != [] {
      var n := |cells| - 1;
      var sc0 := ScanCells(p, attr, ty, cells[..n]);
      ScanEdge(p, attr, ty, cells[..n]);
      StepShape(p, attr, ty, n, cells[n], sc0);
      BarStartStep(p, ty, n);
      var b := if ResetAt(p, ty, n) then EmptyBar<C>(p) else sc0.bar;
      EdgeRun(p, ty, b.ec, n, BarStart(p, ty, n), BarStart(p, ty, n + 1));
    }
  }

  /** Where the startpoint sits in the data bar once `n` cells are
      scanned: its distance from the bar's start, or None when the
      startpoint has not been reached or the path is not the data path. */
  function DspAt(p: Params, ty: char, n: nat): (r: Option<nat>)
    ensures r.Some? <==> ty == 'd' && 0 <= p.spin < n
    ensures r.Some? ==> r.value + BarStart(p, ty, n) == p.spin
  {
    if ty == 'd' && 0 <= p.spin < n then Some(p.spin - BarStart(p, ty, n)) else None
  }

  /** The `dsp` part of one step of the scan, on plain values. */
  lemma DspStep(p: Params, ty: char, n: nat, hb: nat, before: Option<nat>, after: Option<nat>)
    requires before == DspAt(p, ty, n)
    requires hb == if ResetAt(p, ty, n) then 0 else n - BarStart(p, ty, n)
    requires after == if n == p.spin && ty == 'd' then Some(hb) else before
    ensures after == DspAt(p, ty, n + 1)
  {
    BarStartStep(p, ty, n);
  }

  /** A bar has one hatch per cell from its start on. */
  lemma {:induction false} HatchCount<C>(p: Params, attr: C -> string, ty: char, cells: seq<C>)
    ensures |ScanCells(p, attr, ty, cells).bar.ha| == |cells| - BarStart(p, ty, |cells|)
  {
    ScanHatch(p, attr, ty, cells);
  }

  /** `dsp` is the startpoint's place in the data bar. */
  lemma {:induction false} ScanDsp<C>(p: Params, attr: C -> string, ty: char, cells: seq<C>)
    ensures ScanCells(p, attr, ty, cells).dsp == DspAt(p, ty, |cells|)
    decreases |cells|
  {
    if cells != [] {
      var n := |cells| - 1;
      var sc0 := ScanCells(p, attr, ty, cells[..n]);
      ScanDsp(p, attr, ty, cells[..n]);
      HatchCount(p, attr, ty, cells[..n]);
      StepShape(p, attr, ty, n, cells[n], sc0);
      var sc := Step(p, attr, ty, n, cells[n], sc0);
      assert ScanCells(p, attr, ty, cells) == sc;
      var hb := if ResetAt(p, ty, n) then 0 else |sc0.bar.ha|;
      DspStep(p, ty, n, hb, sc0.dsp, sc.dsp);
    }
  }

  /** The colour of each cell's bar: the colour of the sticky tag after
      that cell. */
  function Colors<C>(p: Params, attr: C -> string, cells: seq<C>): (cs: seq<string>)
    ensures |cs| == |cells|
  {
    if cells == [] then []
    else Colors(p, attr, cells[..|cells| - 1]) + [ColorOf(p, LegendKey(p, TagAfter(p, attr, cells)))]
  }

  /** Every bar has the colour of its cell's class, the class being the
      sticky tag after that cell. */
  lemma {:induction false} ScanColors<C>(p: Params, attr: C -> string, ty: char, cells: seq<C>)
    ensures ScanCells(p, attr, ty, cells).bar.c == Colors(p, attr, cells)[BarStart(p, ty, |cells|)..]
    decreases |cells|
  {
    if cells != [] {
      var n := |cells| - 1;
      var sc0 := ScanCells(p, attr, ty, cells[..n]);
      ScanColors(p, attr, ty, cells[..n]);
      ScanTag(p, attr, ty, cells);
      StepShape(p, attr, ty, n, cells[n], sc0);
      BarStartStep(p, ty, n);
      var b := if ResetAt(p, ty, n) then EmptyBar<C>(p) else sc0.bar;
      var cs := Colors(p, attr, cells);
      assert cs[..n] == Colors(p, attr, cells[..n]);
      SliceStep(cs, n, BarStart(p, ty, n + 1), b.c);
    }
  }

  /** The colour of cell `i`'s bar, read off the colour sequence. */
  lemma {:induction false} ColorsAt<C>(p: Params, attr: C -> string, cells: seq<C>, i: nat)
    requires i < |cells|
    ensures Colors(p, attr, cells)[i] == ColorOf(p, LegendKey(p, TagAfter(p, attr, cells[..i + 1])))
    decreases |cells|
  {
    var n := |cells| - 1;
    if i < n {
      ColorsAt(p, attr, cells[..n], i);
      assert cells[..n][..i + 1] == cells[..i + 1];
    } else {
      assert cells[..i + 1] == cells;
    }
  }
}
