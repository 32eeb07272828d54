/** The rules-file compiler `load_times_cfg` (pt_ana_ts.py): lines of
    `key: value`, each handled by the table its key selects, folded into one
    configuration record, with the first failing line reported by its
    1-based number. */
module TimesCfg {
  import opened Wrappers
  import opened PyStr
  import opened Patterns
  import opened OrderedTable

  // ------------------------------------------------------------ toggles

  /** The boolean options, numbered in the order the source lists them.
      Each has a key in the rules file, a name in the configuration (given
      in the comments) and a hard-coded default. */
  const ToggleCount: nat := 17

  function ToggleKey(i: nat): string
    requires i < ToggleCount
  {
    match i
    case 0 => "clock_check_enable"                         // ckc_en
    case 1 => "delta_sum_enable"                           // dts_en
    case 2 => "path_segment_enable"                        // seg_en
    case 3 => "ckm_with_non_clock_cell"                    // ckm_nock
    case 4 => "through_pin_on_report"                      // thp_on_rpt
    case 5 => "slack_on_report"                            // slk_on_rpt
    case 6 => "clock_uncertainty_on_report"                // unce_on_rpt
    case 7 => "library_required_on_report"                 // lib_on_rpt
    case 8 => "datapath_level_on_report"                   // dplv_on_rpt
    case 9 => "clock_skew_on_report"                       // ck_skew_on_rpt
    case 10 => "segment_data_latency_on_report"            // seg_dlat_on_rpt
    case 11 => "segment_data_delta_on_report"              // seg_ddt_on_rpt
    case 12 => "segment_launch_clk_latency_on_report"      // seg_llat_on_rpt
    case 13 => "segment_launch_clk_delta_on_report"        // seg_ldt_on_rpt
    case 14 => "segment_capture_clk_latency_on_report"     // seg_clat_on_rpt
    case 15 => "segment_capture_clk_delta_on_report"       // seg_cdt_on_rpt
    case 16 => "segment_capture_clk_latency_include_crpr"  // seg_clat_inc_crpr
  }

  function ToggleDefault(i: nat): bool
    requires i < ToggleCount
  {
    match i
    case 0 => false
    case 1 => false
    case 2 => false
    case 3 => false
    case 4 => false
    case 5 => true
    case 6 => false
    case 7 => false
    case 8 => false
    case 9 => true
    case 10 => true
    case 11 => true
    case 12 => true
    case 13 => true
    case 14 => true
    case 15 => true
    case 16 => true
  }

  /** The toggle keys as a total function, for the search below. */
  function KeyAt(i: nat): string {
    if i < ToggleCount then ToggleKey(i) else []
  }

  /** The first position in `from .. n - 1` where `keyAt` gives `key`. */
  function FindKey(keyAt: nat -> string, n: nat, key: string, from: nat): (r: Option<nat>)
    requires from <= n
    ensures r.Some? ==> from <= r.value < n && keyAt(r.value) == key
    ensures r.None? <==> forall i :: from <= i < n ==> keyAt(i) != key
    decreases n - from
  {
    if from == n then None
    else if keyAt(from) == key then Some(from)
    else FindKey(keyAt, n, key, from + 1)
  }

  /** The position of the toggle whose rules-file key is `key`. */
  function ToggleIndex(key: string): (r: Option<nat>)
    ensures r.Some? ==> r.value < ToggleCount && ToggleKey(r.value) == key
    ensures r.None? <==> forall i :: 0 <= i < ToggleCount ==> ToggleKey(i) != key
  {
    assert forall i :: 0 <= i < ToggleCount ==> KeyAt(i) == ToggleKey(i);
    FindKey(KeyAt, ToggleCount, key, 0)
  }

  /** `str(b).lower()`. */
  function BoolText(b: bool): string {
    if b then "true" else "false"
  }

  /** The value a toggle takes from the text after its key: the opposite of
      its default when the text is, ignoring case, the spelling of that
      opposite, and the default for any other text. */
  function ToggleValue(default: bool, value: string): bool {
    if Lower(value) == BoolText(!default) then !default else default
  }

  // ------------------------------------------------------- configuration

  /** A `dc` entry: the catch-all pattern (stored under the key "re") or a
      decimal driving-cell value keyed by cell name.  Both kinds share one
      dictionary, as in the source. */
  datatype DcEntry = DcPattern(re: Regex) | DcValue(value: real)

  datatype Config = Config(
    flags: map<nat, bool>,                     // toggle number -> value
    bds: map<string, seq<string>>,             // bar data-set tag -> data-type codes
    ckpc: set<string>,                         // clock pin cells
    ckpi: set<string>,                         // clock pin instances
    ckpr: seq<Regex>,                          // clock pin patterns
    hcd: map<string, map<string, string>>,     // cell type -> "pi:po" -> tag
    ckt: seq<(bool, Regex)>,                   // clock cell type rules
    ckm: seq<Regex>,                           // clock match overrides
    dpc: Option<string>,                       // default path class
    pc: Table<Regex>,                          // path classes, insertion ordered
    cc: Table<Regex>,                          // cell classes, insertion ordered
    dc: map<string, DcEntry>                   // driving cells
  )

  datatype ConfigError = ConfigSyntaxError(line: nat)

  function Defaults(): (c: Config)
    ensures forall i :: 0 <= i < ToggleCount ==> i in c.flags && c.flags[i] == ToggleDefault(i)
  {
    Config(map i | 0 <= i < ToggleCount :: ToggleDefault(i),
           map[], {}, {}, [], map[], [], [], None, [], [], map[])
  }

  /** The invariant every loaded configuration keeps: a value for each
      toggle, and no tag twice in the ordered tables. */
  predicate Valid(c: Config) {
    (forall i :: 0 <= i < ToggleCount ==> i in c.flags) && Distinct(c.pc) && Distinct(c.cc)
  }

  /** The keys that have a handler. */
  predicate KnownKey(key: string) {
    ToggleIndex(key).Some? || key in {"bds", "ckt", "ckp", "ckm", "dpc", "pc", "cc", "dc", "hcd"}
  }

  /** The map `hcd[type_]`, empty when the type has no entry yet
      (`setdefault`). */
  function HcdOf(hcd: map<string, map<string, string>>, type_: string): map<string, string> {
    if type_ in hcd then hcd[type_] else map[]
  }

  // ------------------------------------------------------------ handlers

  /** A toggle line: its value is recomputed from the text alone. */
  function HandleToggle(cfg: Config, i: nat, value: string): (r: Config)
    requires i < ToggleCount
    ensures r.(flags := cfg.flags) == cfg && r.flags.Keys == cfg.flags.Keys + {i}
  {
    cfg.(flags := cfg.flags[i := ToggleValue(ToggleDefault(i), value)])
  }

  /** `bds: tag code...`. */
  function HandleBds(cfg: Config, toks: seq<string>): (r: Option<Config>)
    ensures r.Some? ==> r.value.(bds := cfg.bds) == cfg
  {
    if |toks| >= 1 then Some(cfg.(bds := cfg.bds[toks[0] := toks[1..]])) else None
  }

  /** `ckt: y|n pattern`, the tag case-insensitive. */
  function HandleCkt(cfg: Config, toks: seq<string>, eng: Engine): (r: Option<Config>)
    ensures r.Some? ==> r.value.(ckt := cfg.ckt) == cfg
  {
    if |toks| != 2 || !eng.compiles(toks[1]) then None
    else
      var flag := Lower(toks[0]);
      if flag == "y" then Some(cfg.(ckt := cfg.ckt + [(true, Regex(toks[1]))]))
      else if flag == "n" then Some(cfg.(ckt := cfg.ckt + [(false, Regex(toks[1]))]))
      else None
  }

  /** The compiled patterns of `pats`, or None if one does not compile. */
  function CompileAll(pats: seq<string>, eng: Engine): (r: Option<seq<Regex>>)
    ensures r.Some? <==> forall j :: 0 <= j < |pats| ==> eng.compiles(pats[j])
    ensures r.Some? ==> r.value == seq(|pats|, j requires 0 <= j < |pats| => Regex(pats[j]))
  {
    if forall j :: 0 <= j < |pats| ==> eng.compiles(pats[j]) then
      Some(seq(|pats|, j requires 0 <= j < |pats| => Regex(pats[j])))
    else None
  }

  /** `ckp: c|i|r item...`, the type case-sensitive. */
  function HandleCkp(cfg: Config, toks: seq<string>, eng: Engine): (r: Option<Config>)
    ensures r.Some? ==> r.value.(ckpc := cfg.ckpc, ckpi := cfg.ckpi, ckpr := cfg.ckpr) == cfg
  {
    if |toks| == 0 then None
    else
      var pats := toks[1..];
      if toks[0] == "c" then Some(cfg.(ckpc := cfg.ckpc + set p | p in pats))
      else if toks[0] == "i" then Some(cfg.(ckpi := cfg.ckpi + set p | p in pats))
      else if toks[0] == "r" then
        match CompileAll(pats, eng)
        case None => None
        case Some(res) => Some(cfg.(ckpr := cfg.ckpr + res))
      else None
  }

  /** `ckm: pattern ...`: only the first word is used. */
  function HandleCkm(cfg: Config, toks: seq<string>, eng: Engine): (r: Option<Config>)
    ensures r.Some? ==> r.value.(ckm := cfg.ckm) == cfg
  {
    if |toks| >= 1 && eng.compiles(toks[0]) then Some(cfg.(ckm := cfg.ckm + [Regex(toks[0])]))
    else None
  }

  /** `pc: tag pattern` and `cc: tag pattern`: dictionary assignment.  A
      line that is not exactly two words, or whose pattern does not
      compile, raises; otherwise the tag is in the table, the tags already
      there keep their order and a new one goes at the end. */
  function HandleClass(table: Table<Regex>, toks: seq<string>, eng: Engine): (r: Option<Table<Regex>>)
    ensures r.Some? <==> |toks| == 2 && eng.compiles(toks[1])
    ensures r.Some? ==> Keys(r.value) == if toks[0] in Keys(table) then Keys(table) else Keys(table) + [toks[0]]
  {
    if |toks| == 2 && eng.compiles(toks[1]) then
      PutKeys(table, toks[0], Regex(toks[1]));
      Some(Put(table, toks[0], Regex(toks[1])))
    else None
  }

  /** `dc: r pattern ...` or `dc: value cell ...`. */
  function HandleDc(cfg: Config, toks: seq<string>, eng: Engine, decimal: string -> Option<real>): (r: Option<Config>)
    ensures r.Some? ==> r.value.(dc := cfg.dc) == cfg
  {
    if |toks| < 2 then None
    else if toks[0] == "r" then
      if eng.compiles(toks[1]) then Some(cfg.(dc := cfg.dc["re" := DcPattern(Regex(toks[1]))])) else None
    else
      match decimal(toks[0])
      case None => None
      case Some(v) => Some(cfg.(dc := cfg.dc[toks[1] := DcValue(v)]))
  }

  /** `hcd.setdefault(type_, {})[pin] = tag`. */
  function HcdSet(hcd: map<string, map<string, string>>, type_: string, pin: string, tag: string): map<string, map<string, string>> {
    hcd[type_ := HcdOf(hcd, type_)[pin := tag]]
  }

  /** The tag recorded for a cell type and a `pi:po` pin pair, if any. */
  function HcdLookup(hcd: map<string, map<string, string>>, type_: string, pin: string): Option<string> {
    if type_ in hcd && pin in hcd[type_] then Some(hcd[type_][pin]) else None
  }

  /** `hcd: type pin_in pin_out tag` or `hcd: type pin_in pin_out "tag"`:
      the text between the first two double quotes is the tag. */
  function HandleHcd(cfg: Config, value: string): (r: Option<Config>)
    ensures r.Some? ==> r.value.(hcd := cfg.hcd) == cfg
  {
    var quoted := SplitOn(value, '"');
    var words := SplitWs(quoted[0]);
    if |quoted| > 1 then
      if |words| == 3 then Some(cfg.(hcd := HcdSet(cfg.hcd, words[0], words[1] + ":" + words[2], quoted[1])))
      else None
    else if |words| == 4 then Some(cfg.(hcd := HcdSet(cfg.hcd, words[0], words[1] + ":" + words[2], words[3])))
    else None
  }

  /** The branch of the handler chain a key selects.  The source tries the
      toggles first; no toggle key is one of the named keys (all toggle
      keys are longer), so trying the named keys first selects the same
      branch, as `HandlerToggleFirst` shows. */
  datatype Handler = Toggle(i: nat) | Bds | Ckt | Ckp | Ckm | Dpc | Pc | Cc | Dc | Hcd | NoHandler

  function HandlerOf(key: string): (h: Handler)
    ensures h.Toggle? ==> h.i < ToggleCount && ToggleKey(h.i) == key
  {
    if key == "bds" then Bds
    else if key == "ckt" then Ckt
    else if key == "ckp" then Ckp
    else if key == "ckm" then Ckm
    else if key == "dpc" then Dpc
    else if key == "pc" then Pc
    else if key == "cc" then Cc
    else if key == "dc" then Dc
    else if key == "hcd" then Hcd
    else match ToggleIndex(key)
      case Some(i) => Toggle(i)
      case None => NoHandler
  }

  /** The handler for one stripped `key: value` pair; None where the
      handler raises.  A key without a handler changes nothing. */
  function HandleEntry(cfg: Config, key: string, value: string, eng: Engine,
                       decimal: string -> Option<real>): (r: Option<Config>)
    ensures r.Some? ==> cfg.flags.Keys <= r.value.flags.Keys
    ensures r.Some? && HandlerOf(key) != Pc ==> r.value.pc == cfg.pc
    ensures r.Some? && HandlerOf(key) != Cc ==> r.value.cc == cfg.cc
    ensures r.Some? && HandlerOf(key) == Pc ==> HandleClass(cfg.pc, SplitWs(value), eng) == Some(r.value.pc)
    ensures r.Some? && HandlerOf(key) == Cc ==> HandleClass(cfg.cc, SplitWs(value), eng) == Some(r.value.cc)
  {
    var toks := SplitWs(value);
    match HandlerOf(key)
    case Toggle(i) => Some(HandleToggle(cfg, i, value))
    case Bds => HandleBds(cfg, toks)
    case Ckt => HandleCkt(cfg, toks, eng)
    case Ckp => HandleCkp(cfg, toks, eng)
    case Ckm => HandleCkm(cfg, toks, eng)
    case Dpc => Some(cfg.(dpc := Some(value)))
    case Pc =>
      (match HandleClass(cfg.pc, toks, eng)
       case None => None
       case Some(t) => Some(cfg.(pc := t)))
    case Cc =>
      (match HandleClass(cfg.cc, toks, eng)
       case None => None
       case Some(t) => Some(cfg.(cc := t)))
    case Dc => HandleDc(cfg, toks, eng, decimal)
    case Hcd => HandleHcd(cfg, value)
    case NoHandler => Some(cfg)
  }

  /** One line of the file: the comment is cut off at the first `#`, a blank
      remainder is skipped, anything else must split at exactly one `:`.
      No line removes a toggle. */
  function LoadLine(cfg: Config, line: string, eng: Engine, decimal: string -> Option<real>): (r: Option<Config>)
    ensures Strip(SplitOn(line, '#')[0]) == [] ==> r == Some(cfg)
    ensures r.Some? && r.value != cfg ==> |SplitOn(Strip(SplitOn(line, '#')[0]), ':')| == 2
    ensures r.Some? ==> cfg.flags.Keys <= r.value.flags.Keys
  {
    var text := Strip(SplitOn(line, '#')[0]);
    if text == [] then Some(cfg)
    else
      var kv := SplitOn(text, ':');
      if |kv| != 2 then None
      else HandleEntry(cfg, Strip(kv[0]), Strip(kv[1]), eng, decimal)
  }

  /** The line handler as a step function. */
  function LineStep(eng: Engine, decimal: string -> Option<real>): (Config, string) -> Option<Config> {
    (c: Config, line: string) => LoadLine(c, line, eng, decimal)
  }

  /** The lines from number `first` on, fed to `step` in order; the first
      line it rejects ends the load with that line's number. */
  function FoldLines(step: (Config, string) -> Option<Config>, cfg: Config, lines: seq<string>, first: nat)
    : Result<Config, ConfigError>
    decreases |lines|
  {
    if lines == [] then Success(cfg)
    else
      match step(cfg, lines[0])
      case None => Failure(ConfigSyntaxError(first))
      case Some(c) => FoldLines(step, c, lines[1..], first + 1)
  }

  /** The check after the last line: a default path class that names no
      `pc` tag is dropped; one that names a tag is kept, and nothing else
      changes. */
  function CheckDpc(cfg: Config): (r: Config)
    ensures r.dpc.Some? ==> r.dpc.value in Keys(r.pc)
    ensures r.(dpc := cfg.dpc) == cfg
    ensures r.dpc == cfg.dpc || r.dpc.None?
    ensures cfg.dpc.Some? && cfg.dpc.value in Keys(cfg.pc) ==> r == cfg
  {
    if cfg.dpc.Some? && cfg.dpc.value !in Keys(cfg.pc) then cfg.(dpc := None) else cfg
  }

  /** `load_times_cfg`: no file gives the defaults; a failure names a line
      of the file by its 1-based number; a loaded default path class names
      a `pc` tag. */
  function Load(cfgFile: Option<seq<string>>, eng: Engine, decimal: string -> Option<real>): (r: Result<Config, ConfigError>)
    ensures cfgFile.None? ==> r == Success(Defaults())
    ensures r.Failure? ==> cfgFile.Some? && 1 <= r.error.line <= |cfgFile.value|
    ensures r.Success? && r.value.dpc.Some? ==> r.value.dpc.value in Keys(r.value.pc)
  {
    match cfgFile
    case None => Success(Defaults())
    case Some(lines) =>
      match FoldLines(LineStep(eng, decimal), Defaults(), lines, 1)
      case Failure(e) =>
        FoldError(LineStep(eng, decimal), Defaults(), lines, 1);
        Failure(e)
      case Success(c) => Success(CheckDpc(c))
  }

  /** The loader as the source runs it: one pass over the lines, updating
      the configuration in place. */
  method LoadTimesCfg(cfgFile: Option<seq<string>>, eng: Engine, decimal: string -> Option<real>)
    returns (r: Result<Config, ConfigError>)
    ensures r == Load(cfgFile, eng, decimal)
  {
    var cfg := Defaults();
    if cfgFile.None? {
      return Success(cfg);
    }
    var lines := cfgFile.value;
    var fno := 0;
    while fno < |lines|
      invariant 0 <= fno <= |lines|
      invariant FoldLines(LineStep(eng, decimal), cfg, lines[fno..], fno + 1)
             == FoldLines(LineStep(eng, decimal), Defaults(), lines, 1)
    {
      var next := LoadLine(cfg, lines[fno], eng, decimal);
      assert lines[fno..][1..] == lines[fno + 1..];
      if next.None? {
        return Failure(ConfigSyntaxError(fno + 1));
      }
      cfg := next.value;
      fno := fno + 1;
    }
    if cfg.dpc.Some? && cfg.dpc.value !in Keys(cfg.pc) {
      cfg := cfg.(dpc := None);
    }
    return Success(cfg);
  }

  // ------------------------------------------------------------- toggles

  /** Every toggle key is longer than the short handler keys. */
  lemma ToggleKeysLong()
    ensures forall i :: 0 <= i < ToggleCount ==> |ToggleKey(i)| > 3
  {
  }

  /** The handler keys `bds` ... `hcd` are no toggle keys. */
  lemma ShortKeyNoToggle(key: string)
    requires |key| <= 3
    ensures ToggleIndex(key).None?
  {
    ToggleKeysLong();
  }

  /** A toggle line sets its flag to the opposite of the default exactly
      when the value spells that opposite, in any case, and touches
      nothing else. */
  lemma ToggleRule(cfg: Config, key: string, value: string, eng: Engine, decimal: string -> Option<real>)
    requires ToggleIndex(key).Some?
    ensures var i := ToggleIndex(key).value;
      var d := ToggleDefault(i);
      var r := HandleEntry(cfg, key, value, eng, decimal);
      && ToggleKey(i) == key
      && r.Some?
      && i in r.value.flags
      && (r.value.flags[i] != d <==> Lower(value) == BoolText(!d))
      && (forall j :: j != i ==> (j in r.value.flags <==> j in cfg.flags))
      && (forall j :: j != i && j in cfg.flags ==> r.value.flags[j] == cfg.flags[j])
      && r.value.(flags := cfg.flags) == cfg
  {
    HandlerToggleFirst(key);
  }

  /** Of two lines for the same toggle the later one wins, whatever the
      earlier one said. */
  lemma ToggleLastWins(cfg: Config, key: string, v1: string, v2: string, eng: Engine, decimal: string -> Option<real>)
    requires ToggleIndex(key).Some?
    ensures HandleEntry(cfg, key, v1, eng, decimal).Some?
    ensures HandleEntry(HandleEntry(cfg, key, v1, eng, decimal).value, key, v2, eng, decimal)
         == HandleEntry(cfg, key, v2, eng, decimal)
  {
    HandlerToggleFirst(key);
    var i := ToggleIndex(key).value;
    var d := ToggleDefault(i);
    assert cfg.flags[i := ToggleValue(d, v1)][i := ToggleValue(d, v2)] == cfg.flags[i := ToggleValue(d, v2)];
  }

  /** `slack_on_report: False` switches the slack column off, and any
      other spelling such as `no` keeps it on. */
  lemma SlackToggleExample(eng: Engine, decimal: string -> Option<real>)
    ensures ToggleIndex("slack_on_report") == Some(5)
    ensures HandleEntry(Defaults(), "slack_on_report", "False", eng, decimal)
         == Some(Defaults().(flags := Defaults().flags[5 := false]))
    ensures HandleEntry(Defaults(), "slack_on_report", "no", eng, decimal)
         == Some(Defaults().(flags := Defaults().flags[5 := true]))
  {
    HandlerToggleFirst("slack_on_report");
    assert Lower("False") == "false";
    assert Lower("no") != "false";
  }

  /** A key without a handler is skipped without error. */
  lemma UnknownKeyIgnored(cfg: Config, key: string, value: string, eng: Engine, decimal: string -> Option<real>)
    requires !KnownKey(key)
    ensures HandleEntry(cfg, key, value, eng, decimal) == Some(cfg)
  {
    assert HandlerOf(key) == NoHandler;
  }

  // --------------------------------------------------------------- lines

  /** Cutting at the first `#` leaves the text before the comment. */
  lemma CommentCut(body: string, comment: string)
    requires '#' !in body && (comment == [] || comment[0] == '#')
    ensures SplitOn(body + comment, '#')[0] == body
  {
    if comment == [] {
      assert body + comment == body;
      SplitOnNone(body, '#');
    } else {
      assert body + comment == body + ['#'] + comment[1..];
      SplitOnAt(body, comment[1..], '#');
    }
  }

  /** `key:value` text splits at its one colon into the key and the
      value. */
  lemma KeyValueText(k: string, rest: string)
    requires ':' !in k && ':' !in rest
    ensures SplitOn(k + ":" + rest, ':') == [k, rest]
  {
    assert k + ":" + rest == k + [':'] + rest;
    SplitOnAt(k, rest, ':');
    SplitOnNone(rest, ':');
  }

  lemma NoColonPadded(sp: string, v: string)
    requires AllSpace(sp) && ':' !in v
    ensures ':' !in sp + v
  {
    assert !IsSpace(':');
    var rest := sp + v;
    forall i | 0 <= i < |rest| ensures rest[i] != ':' {
      if i < |sp| { assert IsSpace(rest[i]); } else { assert rest[i] == v[i - |sp|]; }
    }
  }

  lemma LoadLineEntry(cfg: Config, line: string, k: string, rest: string, eng: Engine, decimal: string -> Option<real>)
    requires Strip(SplitOn(line, '#')[0]) == k + ":" + rest
    requires SplitOn(k + ":" + rest, ':') == [k, rest]
    ensures LoadLine(cfg, line, eng, decimal) == HandleEntry(cfg, Strip(k), Strip(rest), eng, decimal)
  {
    assert (k + ":" + rest)[|k|] == ':';
  }

  /** A line `key: value # comment`, with any whitespace around key and
      value, reaches the handler of `key` with the bare key and value. */
  lemma EntryLine(cfg: Config, sp0: string, k: string, sp: string, v: string, sp2: string, comment: string,
                  eng: Engine, decimal: string -> Option<real>)
    requires AllSpace(sp0) && AllSpace(sp) && AllSpace(sp2)
    requires k != [] && Trimmed(k) && Trimmed(v) && (v == [] ==> sp == [])
    requires ':' !in k && ':' !in v && '#' !in k && '#' !in v
    requires comment == [] || comment[0] == '#'
    ensures LoadLine(cfg, sp0 + (k + ":" + (sp + v)) + sp2 + comment, eng, decimal) == HandleEntry(cfg, k, v, eng, decimal)
  {
    var rest := sp + v;
    var m := k + ":" + rest;
    var body := sp0 + m + sp2;
    var line := body + comment;
    assert !IsSpace('#') && !IsSpace(':');
    assert '#' !in body;
    CommentCut(body, comment);
    assert m[0] == k[0];
    assert Trimmed(m);
    StripPadded(sp0, m, sp2);
    NoColonPadded(sp, v);
    KeyValueText(k, rest);
    LoadLineEntry(cfg, line, k, rest, eng, decimal);
    StripTrimmed(k);
    StripLeading(sp, v);
  }

  /** A blank line or a comment line changes nothing. */
  lemma CommentLine(cfg: Config, sp: string, comment: string, eng: Engine, decimal: string -> Option<real>)
    requires AllSpace(sp) && (comment == [] || comment[0] == '#')
    ensures LoadLine(cfg, sp + comment, eng, decimal) == Some(cfg)
  {
    assert !IsSpace('#');
    assert '#' !in sp;
    if comment == [] {
      assert sp + comment == sp;
      SplitOnNone(sp, '#');
    } else {
      assert sp + comment == sp + ['#'] + comment[1..];
      SplitOnAt(sp, comment[1..], '#');
    }
    assert sp == sp + [] + [];
    StripPadded(sp, [], []);
  }

  /** A line with text but no colon, or with a second colon, is a syntax
      error. */
  lemma ColonCountLine(cfg: Config, sp0: string, m: string, sp2: string, eng: Engine, decimal: string -> Option<real>)
    requires AllSpace(sp0) && AllSpace(sp2) && m != [] && Trimmed(m) && '#' !in m
    requires Occurrences(m, ':') != 1
    ensures LoadLine(cfg, sp0 + m + sp2, eng, decimal) == None
  {
    var body := sp0 + m + sp2;
    assert !IsSpace('#');
    assert '#' !in body;
    SplitOnNone(body, '#');
    StripPadded(sp0, m, sp2);
  }

  // ------------------------------------------------------------ handlers

  predicate AllTokens(ws: seq<string>) {
    forall i :: 0 <= i < |ws| ==> Token(ws[i])
  }

  /** A toggle key selects its toggle, as in the source where the toggles
      are tried before the named keys. */
  lemma HandlerToggleFirst(key: string)
    requires ToggleIndex(key).Some?
    ensures HandlerOf(key) == Toggle(ToggleIndex(key).value)
  {
    ToggleKeysLong();
  }

  /** `bds: tag code...` maps the tag to its codes, replacing an earlier
      line for the same tag; a `bds` line without words is an error. */
  lemma BdsRule(cfg: Config, key: string, value: string, tag: string, codes: seq<string>,
                eng: Engine, decimal: string -> Option<real>)
    requires HandlerOf(key) == Bds
    requires SplitWs(value) == [tag] + codes
    ensures var r := HandleEntry(cfg, key, value, eng, decimal);
      && r.Some?
      && tag in r.value.bds && r.value.bds[tag] == codes
      && (forall t :: t != tag ==> (t in r.value.bds <==> t in cfg.bds))
      && (forall t :: t != tag && t in cfg.bds ==> r.value.bds[t] == cfg.bds[t])
      && r.value.(bds := cfg.bds) == cfg
  {
    assert ([tag] + codes)[1..] == codes;
  }

  lemma BdsEmpty(cfg: Config, key: string, value: string, eng: Engine, decimal: string -> Option<real>)
    requires HandlerOf(key) == Bds
    requires AllSpace(value)
    ensures HandleEntry(cfg, key, value, eng, decimal) == None
  {
    SplitWsTrail(value);
  }

  /** `ckt: y|n pattern` appends one clock-type rule, its flag true for
      `y` in either case; another flag, another number of words or a
      pattern that does not compile is an error. */
  lemma CktRule(cfg: Config, key: string, value: string, eng: Engine, decimal: string -> Option<real>)
    requires HandlerOf(key) == Ckt
    ensures var r := HandleEntry(cfg, key, value, eng, decimal);
      var ws := SplitWs(value);
      && (r.Some? <==> |ws| == 2 && (Lower(ws[0]) == "y" || Lower(ws[0]) == "n") && eng.compiles(ws[1]))
      && (r.Some? ==> r.value == cfg.(ckt := cfg.ckt + [(Lower(ws[0]) == "y", Regex(ws[1]))]))
  {
  }

  lemma CkpEntry(cfg: Config, key: string, value: string, eng: Engine, decimal: string -> Option<real>)
    requires HandlerOf(key) == Ckp
    ensures HandleEntry(cfg, key, value, eng, decimal) == HandleCkp(cfg, SplitWs(value), eng)
  {
  }

  /** `ckp: c names...` adds cell names to their set. */
  lemma CkpCells(cfg: Config, key: string, value: string, items: seq<string>,
                 eng: Engine, decimal: string -> Option<real>)
    requires HandlerOf(key) == Ckp
    requires SplitWs(value) == ["c"] + items
    ensures var r := HandleEntry(cfg, key, value, eng, decimal);
      && r.Some? && r.value.(ckpc := cfg.ckpc) == cfg
      && forall x :: x in r.value.ckpc <==> x in cfg.ckpc || x in items
  {
    CkpEntry(cfg, key, value, eng, decimal);
    assert (["c"] + items)[1..] == items;
  }

  /** `ckp: i names...` adds instance names to their set. */
  lemma CkpInstances(cfg: Config, key: string, value: string, items: seq<string>,
                     eng: Engine, decimal: string -> Option<real>)
    requires HandlerOf(key) == Ckp
    requires SplitWs(value) == ["i"] + items
    ensures var r := HandleEntry(cfg, key, value, eng, decimal);
      && r.Some? && r.value.(ckpi := cfg.ckpi) == cfg
      && forall x :: x in r.value.ckpi <==> x in cfg.ckpi || x in items
  {
    CkpEntry(cfg, key, value, eng, decimal);
    assert (["i"] + items)[1..] == items;
  }

  /** `ckp: r patterns...` appends the compiled patterns in order, all or
      none. */
  lemma CkpPatterns(cfg: Config, key: string, value: string, items: seq<string>,
                    eng: Engine, decimal: string -> Option<real>)
    requires HandlerOf(key) == Ckp
    requires SplitWs(value) == ["r"] + items
    ensures var r := HandleEntry(cfg, key, value, eng, decimal);
      && (r.Some? <==> forall j :: 0 <= j < |items| ==> eng.compiles(items[j]))
      && (r.Some? ==> (r.value.(ckpr := cfg.ckpr) == cfg
                      && |r.value.ckpr| == |cfg.ckpr| + |items|
                      && r.value.ckpr[..|cfg.ckpr|] == cfg.ckpr
                      && forall j :: 0 <= j < |items| ==> r.value.ckpr[|cfg.ckpr| + j] == Regex(items[j])))
  {
    CkpEntry(cfg, key, value, eng, decimal);
    var ws := ["r"] + items;
    assert ws[0] == "r" && ws[1..] == items;
    assert ws[0] != "c" && ws[0] != "i";
    var r := HandleCkp(cfg, ws, eng);
    var res := CompileAll(items, eng);
    if res.Some? {
      assert r == Some(cfg.(ckpr := cfg.ckpr + res.value));
    } else {
      assert r == None;
    }
  }

  /** Any other `ckp` type, or no words at all, is an error. */
  lemma CkpOther(cfg: Config, key: string, value: string, eng: Engine, decimal: string -> Option<real>)
    requires HandlerOf(key) == Ckp
    requires var ws := SplitWs(value); ws == [] || (ws[0] != "c" && ws[0] != "i" && ws[0] != "r")
    ensures HandleEntry(cfg, key, value, eng, decimal) == None
  {
  }

  /** `ckm: pattern ...` appends the first word's pattern; later words are
      ignored, and a line without words is an error. */
  lemma CkmRule(cfg: Config, key: string, value: string, eng: Engine, decimal: string -> Option<real>)
    requires HandlerOf(key) == Ckm
    ensures var r := HandleEntry(cfg, key, value, eng, decimal);
      var ws := SplitWs(value);
      && (r.Some? <==> ws != [] && eng.compiles(ws[0]))
      && (r.Some? ==> r.value == cfg.(ckm := cfg.ckm + [Regex(ws[0])]))
  {
  }

  /** `dpc: name` records the name as given, whatever it is. */
  lemma DpcRule(cfg: Config, key: string, value: string, eng: Engine, decimal: string -> Option<real>)
    requires HandlerOf(key) == Dpc
    ensures HandleEntry(cfg, key, value, eng, decimal) == Some(cfg.(dpc := Some(value)))
  {
  }

  /** The effect of `table[tag] = re.compile(pat)` on an ordered table:
      the tag now reads the pattern, every other tag reads as before, and
      the tags keep their order with a new one at the end. */
  lemma ClassRule(table: Table<Regex>, tag: string, pat: string, eng: Engine)
    requires Distinct(table)
    ensures var r := HandleClass(table, [tag, pat], eng);
      && (r.Some? <==> eng.compiles(pat))
      && (r.Some? ==> (Distinct(r.value)
                      && Get(r.value, tag) == Some(Regex(pat))
                      && (forall t :: t != tag ==> Get(r.value, t) == Get(table, t))
                      && Keys(r.value) == if tag in Keys(table) then Keys(table) else Keys(table) + [tag]))
  {
    PutDistinct(table, tag, Regex(pat));
    PutKeys(table, tag, Regex(pat));
    forall t | true
      ensures Get(Put(table, tag, Regex(pat)), t) == if t == tag then Some(Regex(pat)) else Get(table, t)
    {
      PutGet(table, tag, Regex(pat), t);
    }
  }

  /** A class line needs exactly two words. */
  lemma ClassArity(table: Table<Regex>, ws: seq<string>, eng: Engine)
    requires |ws| != 2
    ensures HandleClass(table, ws, eng) == None
  {
  }

  /** `pc: tag pattern` changes the path-class table as `ClassRule` says
      and nothing else. */
  lemma PcRule(cfg: Config, key: string, value: string, eng: Engine, decimal: string -> Option<real>)
    requires HandlerOf(key) == Pc
    ensures var r := HandleEntry(cfg, key, value, eng, decimal);
      && (r.Some? <==> HandleClass(cfg.pc, SplitWs(value), eng).Some?)
      && (r.Some? ==> r.value == cfg.(pc := HandleClass(cfg.pc, SplitWs(value), eng).value))
  {
    var h := HandleClass(cfg.pc, SplitWs(value), eng);
    assert HandleEntry(cfg, key, value, eng, decimal) == if h.Some? then Some(cfg.(pc := h.value)) else None;
  }

  /** `cc: tag pattern` changes the cell-class table the same way. */
  lemma CcRule(cfg: Config, key: string, value: string, eng: Engine, decimal: string -> Option<real>)
    requires HandlerOf(key) == Cc
    ensures var r := HandleEntry(cfg, key, value, eng, decimal);
      && (r.Some? <==> HandleClass(cfg.cc, SplitWs(value), eng).Some?)
      && (r.Some? ==> r.value == cfg.(cc := HandleClass(cfg.cc, SplitWs(value), eng).value))
  {
    var h := HandleClass(cfg.cc, SplitWs(value), eng);
    assert HandleEntry(cfg, key, value, eng, decimal) == if h.Some? then Some(cfg.(cc := h.value)) else None;
  }

  /** `dc: r pattern` stores the catch-all pattern under "re";
      `dc: value cell` stores the decimal value under the cell name.  Extra
      words are ignored; fewer than two words, a pattern that does not
      compile or a value that is no decimal is an error. */
  lemma DcRule(cfg: Config, key: string, value: string, eng: Engine, decimal: string -> Option<real>)
    requires HandlerOf(key) == Dc
    ensures var r := HandleEntry(cfg, key, value, eng, decimal);
      var ws := SplitWs(value);
      && (|ws| < 2 ==> r.None?)
      && (|ws| >= 2 && ws[0] == "r" ==> ((r.Some? <==> eng.compiles(ws[1]))
                         && (r.Some? ==> r.value == cfg.(dc := cfg.dc["re" := DcPattern(Regex(ws[1]))]))))
      && (|ws| >= 2 && ws[0] != "r" ==> ((r.Some? <==> decimal(ws[0]).Some?)
                         && (r.Some? ==> r.value == cfg.(dc := cfg.dc[ws[1] := DcValue(decimal(ws[0]).value)]))))
  {
  }

  /** Recording a hardcoded-delay tag sets that one entry and leaves every
      other cell type and pin pair as it was. */
  lemma HcdSetLookup(hcd: map<string, map<string, string>>, type_: string, pin: string, tag: string,
                     t: string, p: string)
    ensures HcdLookup(HcdSet(hcd, type_, pin, tag), t, p)
         == if t == type_ && p == pin then Some(tag) else HcdLookup(hcd, t, p)
  {
  }

  lemma HcdEntry(cfg: Config, key: string, value: string, eng: Engine, decimal: string -> Option<real>)
    requires HandlerOf(key) == Hcd
    ensures HandleEntry(cfg, key, value, eng, decimal) == HandleHcd(cfg, value)
  {
  }

  /** How a quoted `hcd` value splits: at the quotes first, then the
      part before the opening quote into words. */
  lemma HcdQuotedSplit(ty: string, pi: string, po: string, tag: string, tail: string)
    requires Token(ty) && Token(pi) && Token(po)
    requires '"' !in ty && '"' !in pi && '"' !in po && '"' !in tag
    ensures var quoted := SplitOn(ty + " " + pi + " " + po + " \"" + tag + "\"" + tail, '"');
      |quoted| > 1 && quoted[1] == tag && SplitWs(quoted[0]) == [ty, pi, po]
  {
    var words := ty + " " + pi + " " + po + " ";
    assert '"' !in words;
    assert ty + " " + pi + " " + po + " \"" + tag + "\"" + tail == words + ['"'] + tag + ['"'] + tail;
    SplitOnTwo(words, tag, tail, '"');
    SplitWsThree(ty, pi, po, " ");
  }

  /** `hcd: type pi po "tag"`: the quoted tag, which may hold blanks, is
      recorded for the pin pair `pi:po` of the type; text after the closing
      quote is ignored. */
  lemma HcdQuoted(cfg: Config, key: string, ty: string, pi: string, po: string, tag: string, tail: string,
                  eng: Engine, decimal: string -> Option<real>)
    requires HandlerOf(key) == Hcd
    requires Token(ty) && Token(pi) && Token(po)
    requires '"' !in ty && '"' !in pi && '"' !in po && '"' !in tag
    ensures var value := ty + " " + pi + " " + po + " \"" + tag + "\"" + tail;
      HandleEntry(cfg, key, value, eng, decimal) == Some(cfg.(hcd := HcdSet(cfg.hcd, ty, pi + ":" + po, tag)))
  {
    var value := ty + " " + pi + " " + po + " \"" + tag + "\"" + tail;
    HcdEntry(cfg, key, value, eng, decimal);
    HcdQuotedSplit(ty, pi, po, tag, tail);
  }

  /** `hcd: type pi po tag` without quotes: exactly four words. */
  lemma HcdUnquoted(cfg: Config, key: string, value: string, ty: string, pi: string, po: string, tag: string,
                    eng: Engine, decimal: string -> Option<real>)
    requires HandlerOf(key) == Hcd
    requires '"' !in value && SplitWs(value) == [ty, pi, po, tag]
    ensures HandleEntry(cfg, key, value, eng, decimal) == Some(cfg.(hcd := HcdSet(cfg.hcd, ty, pi + ":" + po, tag)))
  {
    HcdEntry(cfg, key, value, eng, decimal);
    SplitOnNone(value, '"');
  }

  /** Without quotes, any word count other than four is an error. */
  lemma HcdUnquotedArity(cfg: Config, key: string, value: string, eng: Engine, decimal: string -> Option<real>)
    requires HandlerOf(key) == Hcd
    requires '"' !in value && |SplitWs(value)| != 4
    ensures HandleEntry(cfg, key, value, eng, decimal) == None
  {
    HcdEntry(cfg, key, value, eng, decimal);
    SplitOnNone(value, '"');
  }

  // ---------------------------------------------------------------- file

  /** Loading lines one after the other is loading them together: the
      first failure in the first part ends the load, otherwise the second
      part continues from the configuration and the line number reached. */
  lemma {:induction false} FoldAppend(step: (Config, string) -> Option<Config>, cfg: Config,
                                      a: seq<string>, b: seq<string>, first: nat)
    ensures FoldLines(step, cfg, a + b, first)
         == match FoldLines(step, cfg, a, first)
            case Failure(e) => Failure(e)
            case Success(c) => FoldLines(step, c, b, first + |a|)
    decreases |a|
  {
    if a == [] {
      assert a + b == b;
    } else {
      assert (a + b)[0] == a[0];
      assert (a + b)[1..] == a[1..] + b;
      match step(cfg, a[0])
      case None =>
      case Some(c) =>
        FoldAppend(step, c, a[1..], b, first + 1);
    }
  }

  /** A failed load names the first line that fails: the lines before it
      load, and it does not. */
  lemma {:induction false} FoldError(step: (Config, string) -> Option<Config>, cfg: Config,
                                     lines: seq<string>, first: nat)
    requires FoldLines(step, cfg, lines, first).Failure?
    ensures var n := FoldLines(step, cfg, lines, first).error.line;
      && first <= n < first + |lines|
      && FoldLines(step, cfg, lines[..n - first], first).Success?
      && step(FoldLines(step, cfg, lines[..n - first], first).value, lines[n - first]).None?
    decreases |lines|
  {
    assert lines[..0] == [];
    match step(cfg, lines[0])
    case None =>
    case Some(c) =>
      FoldError(step, c, lines[1..], first + 1);
      var n := FoldLines(step, cfg, lines, first).error.line;
      var k := n - first;
      assert lines[..k][0] == lines[0];
      assert lines[..k][1..] == lines[1..][..k - 1];
      assert lines[1..][k - 1] == lines[k];
  }

  /** Conversely, if the lines before line n load and line n fails, the
      load fails there. */
  lemma FoldErrorAt(step: (Config, string) -> Option<Config>, cfg: Config,
                    lines: seq<string>, first: nat, k: nat)
    requires k < |lines|
    requires FoldLines(step, cfg, lines[..k], first).Success?
    requires step(FoldLines(step, cfg, lines[..k], first).value, lines[k]).None?
    ensures FoldLines(step, cfg, lines, first) == Failure(ConfigSyntaxError(first + k))
  {
    assert lines == lines[..k] + lines[k..];
    FoldAppend(step, cfg, lines[..k], lines[k..], first);
    assert lines[k..][0] == lines[k];
  }

  /** An invariant every step keeps holds after the whole load. */
  lemma {:induction false} FoldKeeps(step: (Config, string) -> Option<Config>, inv: Config -> bool,
                                     cfg: Config, lines: seq<string>, first: nat)
    requires forall c, l :: inv(c) && step(c, l).Some? ==> inv(step(c, l).value)
    requires inv(cfg)
    ensures FoldLines(step, cfg, lines, first).Success? ==> inv(FoldLines(step, cfg, lines, first).value)
    decreases |lines|
  {
    if lines != [] {
      match step(cfg, lines[0])
      case None =>
      case Some(c) =>
        FoldKeeps(step, inv, c, lines[1..], first + 1);
    }
  }

  /** Every handler keeps the toggles and keeps the ordered tables free of
      duplicate tags. */
  lemma HandleEntryValid(cfg: Config, key: string, value: string, eng: Engine, decimal: string -> Option<real>)
    requires Valid(cfg)
    ensures var r := HandleEntry(cfg, key, value, eng, decimal);
      r.Some? ==> Valid(r.value)
  {
    var r := HandleEntry(cfg, key, value, eng, decimal);
    if r.Some? {
      var c := r.value;
      assert cfg.flags.Keys <= c.flags.Keys;
      var h := HandlerOf(key);
      if h == Pc {
        ClassDistinct(cfg.pc, SplitWs(value), eng);
        assert Distinct(c.pc);
      } else {
        assert c.pc == cfg.pc;
      }
      if h == Cc {
        ClassDistinct(cfg.cc, SplitWs(value), eng);
        assert Distinct(c.cc);
      } else {
        assert c.cc == cfg.cc;
      }
    }
  }

  lemma ClassDistinct(table: Table<Regex>, toks: seq<string>, eng: Engine)
    requires Distinct(table)
    ensures var r := HandleClass(table, toks, eng);
      r.Some? ==> Distinct(r.value)
  {
    if |toks| == 2 {
      PutDistinct(table, toks[0], Regex(toks[1]));
    }
  }

  lemma LoadLineValid(cfg: Config, line: string, eng: Engine, decimal: string -> Option<real>)
    requires Valid(cfg)
    ensures var r := LoadLine(cfg, line, eng, decimal);
      r.Some? ==> Valid(r.value)
  {
    var text := Strip(SplitOn(line, '#')[0]);
    var kv := SplitOn(text, ':');
    if text != [] && |kv| == 2 {
      HandleEntryValid(cfg, Strip(kv[0]), Strip(kv[1]), eng, decimal);
    }
  }

  /** A loaded configuration keeps the invariant, and its default path
      class, if any, names a `pc` tag. */
  lemma LoadResult(cfgFile: Option<seq<string>>, eng: Engine, decimal: string -> Option<real>)
    requires Load(cfgFile, eng, decimal).Success?
    ensures var c := Load(cfgFile, eng, decimal).value;
      && Valid(c)
      && (c.dpc.Some? ==> c.dpc.value in Keys(c.pc))
  {
    if cfgFile.Some? {
      var step := LineStep(eng, decimal);
      forall c, l | Valid(c) && step(c, l).Some?
        ensures Valid(step(c, l).value)
      {
        LoadLineValid(c, l, eng, decimal);
      }
      FoldKeeps(step, Valid, Defaults(), cfgFile.value, 1);
    }
  }

  /** The default path class the file named is kept when a `pc` tag of
      that name exists and dropped otherwise; nothing else changes after
      the last line. */
  lemma LoadDpc(lines: seq<string>, eng: Engine, decimal: string -> Option<real>)
    requires FoldLines(LineStep(eng, decimal), Defaults(), lines, 1).Success?
    ensures var raw := FoldLines(LineStep(eng, decimal), Defaults(), lines, 1).value;
      var c := Load(Some(lines), eng, decimal);
      && c.Success?
      && c.value.(dpc := raw.dpc) == raw
      && (c.value.dpc == raw.dpc <==> raw.dpc.None? || raw.dpc.value in Keys(raw.pc))
      && (c.value.dpc != raw.dpc ==> c.value.dpc.None?)
  {
  }

  /** A load fails exactly at a line whose predecessors load and which does
      not, and reports that line's 1-based number. */
  lemma LoadError(lines: seq<string>, eng: Engine, decimal: string -> Option<real>)
    requires Load(Some(lines), eng, decimal).Failure?
    ensures var n := Load(Some(lines), eng, decimal).error.line;
      && 1 <= n <= |lines|
      && FoldLines(LineStep(eng, decimal), Defaults(), lines[..n - 1], 1).Success?
      && LoadLine(FoldLines(LineStep(eng, decimal), Defaults(), lines[..n - 1], 1).value, lines[n - 1], eng, decimal).None?
  {
    var step := LineStep(eng, decimal);
    LoadFailure(lines, eng, decimal);
    FoldError(step, Defaults(), lines, 1);
    var n := FoldLines(step, Defaults(), lines, 1).error.line;
    var prefix := FoldLines(step, Defaults(), lines[..n - 1], 1).value;
    LineStepApply(eng, decimal, prefix, lines[n - 1]);
  }

  /** A failed load is the failure of the fold over the lines. */
  lemma LoadFailure(lines: seq<string>, eng: Engine, decimal: string -> Option<real>)
    requires Load(Some(lines), eng, decimal).Failure?
    ensures Load(Some(lines), eng, decimal) == FoldLines(LineStep(eng, decimal), Defaults(), lines, 1)
  {
  }

  /** The step function applies the line handler. */
  lemma LineStepApply(eng: Engine, decimal: string -> Option<real>, cfg: Config, line: string)
    ensures LineStep(eng, decimal)(cfg, line) == LoadLine(cfg, line, eng, decimal)
  {
  }

  /** An empty rules file gives the same configuration as no file. */
  lemma EmptyFile(eng: Engine, decimal: string -> Option<real>)
    ensures Load(Some([]), eng, decimal) == Load(None, eng, decimal)
  {
  }
}
