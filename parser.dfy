/**
 * Section dispatch and phase ordering of the topology compiler: walking the
 * configuration tree section by section, running the link passes, and
 * chaining parse, link and write.
 *
 * The configuration tree is given (the configuration-file library is not part
 * of this model). Section handlers and link passes are given functions from
 * the element store to a return code and a new store.
 */
module Parser {
  import opened Base
  import opened Store
  import opened Builder
  import Format

  // ---------------------------------------------------------------------------
  // The configuration tree

  /** The node kinds of the configuration tree (snd_config_type_t). */
  datatype ConfigKind = Integer | Integer64 | Real | String | Pointer | Compound

  /** A configuration node: an id (which may be unobtainable), a kind, and the children of a compound. */
  datatype Config = Config(id: Option<string>, kind: ConfigKind, children: seq<Config>)

  /** A section handler (tplg_parse_tlv, tplg_parse_control_mixer, ...), called on one child node. */
  type Handler = (Lists, Config) -> (int, Lists)

  // ---------------------------------------------------------------------------
  // First error wins

  /**
   * Run `step` over `xs` in order, threading the store; stop at the first
   * negative result and return it, else return the last result (`err` when
   * `xs` is empty).
   */
  function Chain<X>(step: (Lists, X) -> (int, Lists), s: Lists, xs: seq<X>, err: int): (res: (int, Lists))
    decreases |xs|
  {
    if xs == [] then (err, s)
    else
      var (e, s1) := step(s, xs[0]);
      if e < 0 then (e, s1) else Chain(step, s1, xs[1..], e)
  }

  /** Every step over `xs`, run in order, returns a non-negative result. */
  predicate Survives<X>(step: (Lists, X) -> (int, Lists), s: Lists, xs: seq<X>)
    decreases |xs|
  {
    xs == [] || (step(s, xs[0]).0 >= 0 && Survives(step, step(s, xs[0]).1, xs[1..]))
  }

  /** The store after running every step over `xs` in order. */
  function Through<X>(step: (Lists, X) -> (int, Lists), s: Lists, xs: seq<X>): (s': Lists)
    decreases |xs|
  {
    if xs == [] then s else Through(step, step(s, xs[0]).1, xs[1..])
  }

  /** The result of the last step over `xs` (`err` when `xs` is empty). */
  function Last<X>(step: (Lists, X) -> (int, Lists), s: Lists, xs: seq<X>, err: int): (e: int)
    decreases |xs|
  {
    if xs == [] then err else Last(step, step(s, xs[0]).1, xs[1..], step(s, xs[0]).0)
  }

  /** Steps are taken in order: after a surviving prefix, the chain goes on from where it left off. */
  lemma {:induction false} ChainAppend<X>(step: (Lists, X) -> (int, Lists), s: Lists, p: seq<X>, q: seq<X>, err: int)
    requires Survives(step, s, p)
    ensures Chain(step, s, p + q, err) == Chain(step, Through(step, s, p), q, Last(step, s, p, err))
    decreases |p|
  {
    if p == [] {
      assert p + q == q;
    } else {
      assert (p + q)[0] == p[0];
      assert (p + q)[1..] == p[1..] + q;
      ChainAppend(step, step(s, p[0]).1, p[1..], q, step(s, p[0]).0);
    }
  }

  /** With no failure, the chain returns the last step's result and the store after every step. */
  lemma ChainSurvives<X>(step: (Lists, X) -> (int, Lists), s: Lists, xs: seq<X>, err: int)
    requires Survives(step, s, xs)
    ensures Chain(step, s, xs, err) == (Last(step, s, xs, err), Through(step, s, xs))
  {
    ChainAppend(step, s, xs, [], err);
    assert xs + [] == xs;
  }

  /**
   * After surviving steps, the last result is non-negative: it is a step's
   * result, or the starting code when there are no steps.
   */
  lemma {:induction false} LastNonNegative<X>(step: (Lists, X) -> (int, Lists), s: Lists, xs: seq<X>, err: int)
    requires Survives(step, s, xs) && (xs != [] || err >= 0)
    ensures Last(step, s, xs, err) >= 0
    decreases |xs|
  {
    if xs != [] {
      LastNonNegative(step, step(s, xs[0]).1, xs[1..], step(s, xs[0]).0);
    }
  }

  /** The last result is that of the step on the last element, run on the store the earlier steps left. */
  lemma {:induction false} LastIsFinalStep<X>(step: (Lists, X) -> (int, Lists), s: Lists, xs: seq<X>, err: int)
    requires xs != []
    ensures Last(step, s, xs, err) == step(Through(step, s, xs[..|xs| - 1]), xs[|xs| - 1]).0
    ensures Through(step, s, xs) == step(Through(step, s, xs[..|xs| - 1]), xs[|xs| - 1]).1
    decreases |xs|
  {
    if |xs| > 1 {
      var s1 := step(s, xs[0]).1;
      LastIsFinalStep(step, s1, xs[1..], step(s, xs[0]).0);
      assert xs[1..][..|xs[1..]| - 1] == xs[..|xs| - 1][1..];
    }
  }

  /**
   * The first negative result is returned at once, with the store as that step
   * left it; the elements after it are never visited.
   */
  lemma ChainFailsAt<X>(step: (Lists, X) -> (int, Lists), s: Lists, p: seq<X>, x: X, q: seq<X>, err: int)
    requires Survives(step, s, p)
    requires step(Through(step, s, p), x).0 < 0
    ensures Chain(step, s, p + [x] + q, err) == step(Through(step, s, p), x)
  {
    assert p + [x] + q == p + ([x] + q);
    ChainAppend(step, s, p, [x] + q, err);
  }

  /** Either every step survives, or the chain's result is exactly that of the first failing step. */
  lemma {:induction false} ChainCases<X>(step: (Lists, X) -> (int, Lists), s: Lists, xs: seq<X>, err: int)
    ensures || Survives(step, s, xs)
            || exists k :: 0 <= k < |xs| && Survives(step, s, xs[..k])
                 && step(Through(step, s, xs[..k]), xs[k]).0 < 0
                 && Chain(step, s, xs, err) == step(Through(step, s, xs[..k]), xs[k])
    decreases |xs|
  {
    if xs != [] && !Survives(step, s, xs) {
      var (e, s1) := step(s, xs[0]);
      if e < 0 {
        assert xs[..0] == [];
        assert Survives(step, s, xs[..0]) && Through(step, s, xs[..0]) == s;
      } else {
        ChainCases(step, s1, xs[1..], e);
        var k :| 0 <= k < |xs[1..]| && Survives(step, s1, xs[1..][..k])
                 && step(Through(step, s1, xs[1..][..k]), xs[1..][k]).0 < 0
                 && Chain(step, s1, xs[1..], e) == step(Through(step, s1, xs[1..][..k]), xs[1..][k]);
        assert xs[..k + 1][0] == xs[0] && xs[..k + 1][1..] == xs[1..][..k];
        assert Survives(step, s, xs[..k + 1]) && Through(step, s, xs[..k + 1]) == Through(step, s1, xs[1..][..k]);
      }
    }
  }

  // ---------------------------------------------------------------------------
  // tplg_parse_compound

  /** The effect of tplg_parse_compound: checks on the node itself, then the handler on each child. */
  function ParseCompoundSpec(h: Handler, s: Lists, cfg: Config): (res: (int, Lists)) {
    if cfg.id.None? || cfg.kind != Compound then (-EINVAL, s)
    else Chain(h, s, cfg.children, -EINVAL)
  }

  /**
   * tplg_parse_compound. Inside the loop the PARENT's kind is tested again,
   * not the child's, so a child of any kind is handed to the handler.
   */
  method ParseCompound(h: Handler, s: Lists, cfg: Config) returns (err: int, s': Lists)
    ensures (err, s') == ParseCompoundSpec(h, s, cfg)
    ensures cfg.id.None? || cfg.kind != Compound ==> err == -EINVAL && s' == s
    ensures cfg.children == [] ==> err == -EINVAL && s' == s
  {
    err := -EINVAL;
    s' := s;
    if cfg.id.None? {
      return -EINVAL, s;
    }
    if cfg.kind != Compound {
      return -EINVAL, s;
    }
    var i := 0;
    while i < |cfg.children|
      invariant 0 <= i <= |cfg.children|
      invariant Chain(h, s, cfg.children, -EINVAL) == Chain(h, s', cfg.children[i..], err)
    {
      var n := cfg.children[i];
      if cfg.kind != Compound {
        return -EINVAL, s';
      }
      var res := h(s', n);
      err, s' := res.0, res.1;
      if err < 0 {
        return;
      }
      i := i + 1;
    }
  }

  /**
   * A child that is not itself compound is not rejected: after siblings that
   * all succeed, the handler is called on it, with the store they left, and the
   * walk goes on from its result.
   */
  lemma LeafChildHandled(h: Handler, s: Lists, cfg: Config, p: seq<Config>, n: Config, q: seq<Config>)
    requires cfg.id.Some? && cfg.kind == Compound && cfg.children == p + [n] + q
    requires n.kind != Compound
    requires Survives(h, s, p)
    ensures var r := h(Through(h, s, p), n);
      ParseCompoundSpec(h, s, cfg) == if r.0 < 0 then r else Chain(h, r.1, q, r.0)
  {
    assert cfg.children == p + ([n] + q);
    ChainAppend(h, s, p, [n] + q, -EINVAL);
    assert ([n] + q)[0] == n && ([n] + q)[1..] == q;
  }

  // ---------------------------------------------------------------------------
  // tplg_parse_config

  /** The top-level section names tplg_parse_config recognises. */
  datatype Section =
    | SectionTlv | SectionControlMixer | SectionControlEnum | SectionControlBytes
    | SectionWidget | SectionPcmConfig | SectionPcmCapabilities | SectionPcm
    | SectionBe | SectionCc | SectionGraph | SectionText | SectionData

  function SectionName(sec: Section): (name: string) {
    match sec
    case SectionTlv => "SectionTLV"
    case SectionControlMixer => "SectionControlMixer"
    case SectionControlEnum => "SectionControlEnum"
    case SectionControlBytes => "SectionControlBytes"
    case SectionWidget => "SectionWidget"
    case SectionPcmConfig => "SectionPCMConfig"
    case SectionPcmCapabilities => "SectionPCMCapabilities"
    case SectionPcm => "SectionPCM"
    case SectionBe => "SectionBE"
    case SectionCc => "SectionCC"
    case SectionGraph => "SectionGraph"
    case SectionText => "SectionText"
    case SectionData => "SectionData"
  }

  /** The name comparisons of tplg_parse_config, in its order. */
  function SectionOf(id: string): (sec: Option<Section>) {
    if id == "SectionTLV" then Some(SectionTlv)
    else if id == "SectionControlMixer" then Some(SectionControlMixer)
    else if id == "SectionControlEnum" then Some(SectionControlEnum)
    else if id == "SectionControlBytes" then Some(SectionControlBytes)
    else if id == "SectionWidget" then Some(SectionWidget)
    else if id == "SectionPCMConfig" then Some(SectionPcmConfig)
    else if id == "SectionPCMCapabilities" then Some(SectionPcmCapabilities)
    else if id == "SectionPCM" then Some(SectionPcm)
    else if id == "SectionBE" then Some(SectionBe)
    else if id == "SectionCC" then Some(SectionCc)
    else if id == "SectionGraph" then Some(SectionGraph)
    else if id == "SectionText" then Some(SectionText)
    else if id == "SectionData" then Some(SectionData)
    else None
  }

  /** Each recognised name selects exactly one section, and each section has exactly one name. */
  lemma SectionTable(id: string, sec: Section)
    ensures SectionOf(id) == Some(sec) <==> id == SectionName(sec)
  {
  }

  /** The section a top-level entry selects: none when its id cannot be obtained or is not recognised. */
  function Dispatch(n: Config): (sec: Option<Section>) {
    if n.id.None? then None else SectionOf(n.id.value)
  }

  /** One top-level entry: a recognised section is parsed with its handler; any other entry is skipped. */
  function Entry(hs: Section -> Handler, s: Lists, n: Config): (res: (int, Lists)) {
    match Dispatch(n)
    case None => (0, s)
    case Some(sec) => ParseCompoundSpec(hs(sec), s, n)
  }

  function EntryStep(hs: Section -> Handler): (step: (Lists, Config) -> (int, Lists)) {
    (s: Lists, n: Config) => Entry(hs, s, n)
  }

  /** A run that did not fail reports 0. */
  function Normalize(r: (int, Lists)): (norm: (int, Lists)) {
    (if r.0 < 0 then r.0 else 0, r.1)
  }

  /** The effect of tplg_parse_config. */
  function ParseConfigSpec(hs: Section -> Handler, s: Lists, cfg: Config): (res: (int, Lists)) {
    if cfg.kind != Compound then (-EINVAL, s)
    else Normalize(Chain(EntryStep(hs), s, cfg.children, 0))
  }

  /** tplg_parse_config. */
  method ParseConfig(hs: Section -> Handler, s: Lists, cfg: Config) returns (err: int, s': Lists)
    ensures (err, s') == ParseConfigSpec(hs, s, cfg)
    ensures err <= 0
    ensures cfg.kind != Compound ==> err == -EINVAL && s' == s
  {
    if cfg.kind != Compound {
      return -EINVAL, s;
    }
    s' := s;
    ghost var code := 0;
    var i := 0;
    while i < |cfg.children|
      invariant 0 <= i <= |cfg.children|
      invariant code >= 0
      invariant Chain(EntryStep(hs), s, cfg.children, 0) == Chain(EntryStep(hs), s', cfg.children[i..], code)
    {
      var n := cfg.children[i];
      assert cfg.children[i..][0] == n && cfg.children[i..][1..] == cfg.children[i + 1..];
      i := i + 1;
      if n.id.None? {
        code := 0;
        continue;
      }
      var sec := SectionOf(n.id.value);
      if sec.None? {
        // an unknown section is reported and skipped
        code := 0;
        continue;
      }
      err, s' := ParseCompound(hs(sec.value), s', n);
      if err < 0 {
        return;
      }
      code := err;
    }
    err := 0;
  }

  /** Only the code of a failure matters to the normalized result, not the code of the last success. */
  lemma {:induction false} NormalizeIgnoresCode(step: (Lists, Config) -> (int, Lists), s: Lists, xs: seq<Config>, e1: int, e2: int)
    requires e1 >= 0 && e2 >= 0
    ensures Normalize(Chain(step, s, xs, e1)) == Normalize(Chain(step, s, xs, e2))
  {
  }

  /** An entry that leaves every store as it is and reports 0 can be removed without changing the result. */
  lemma {:induction false} ChainSkip(step: (Lists, Config) -> (int, Lists), s: Lists, p: seq<Config>, n: Config, q: seq<Config>, err: int)
    requires err >= 0
    requires forall t :: step(t, n) == (0, t)
    ensures Normalize(Chain(step, s, p + [n] + q, err)) == Normalize(Chain(step, s, p + q, err))
    decreases |p|
  {
    if p == [] {
      assert p + [n] + q == [n] + q && ([n] + q)[1..] == q && p + q == q;
      assert Chain(step, s, [n] + q, err) == Chain(step, s, q, 0);
      NormalizeIgnoresCode(step, s, q, 0, err);
    } else {
      var (e, s1) := step(s, p[0]);
      assert (p + [n] + q)[0] == p[0] && (p + [n] + q)[1..] == p[1..] + [n] + q;
      assert (p + q)[0] == p[0] && (p + q)[1..] == p[1..] + q;
      if e >= 0 {
        ChainSkip(step, s1, p[1..], n, q, e);
      }
    }
  }

  /** An entry whose id cannot be obtained, or whose name is not a section name, changes nothing. */
  lemma UnknownEntrySkipped(hs: Section -> Handler, s: Lists, id: Option<string>, p: seq<Config>, n: Config, q: seq<Config>)
    requires Dispatch(n).None?
    ensures ParseConfigSpec(hs, s, Config(id, Compound, p + [n] + q))
         == ParseConfigSpec(hs, s, Config(id, Compound, p + q))
  {
    forall t ensures EntryStep(hs)(t, n) == (0, t) {
    }
    ChainSkip(EntryStep(hs), s, p, n, q, 0);
  }

  /** A recognised section that fails aborts the parse with its code; later entries are not parsed. */
  lemma SectionFailureAborts(hs: Section -> Handler, s: Lists, cfg: Config,
                             p: seq<Config>, n: Config, q: seq<Config>, sec: Section)
    requires cfg.kind == Compound && cfg.children == p + [n] + q
    requires Survives(EntryStep(hs), s, p)
    requires Dispatch(n) == Some(sec)
    requires ParseCompoundSpec(hs(sec), Through(EntryStep(hs), s, p), n).0 < 0
    ensures ParseConfigSpec(hs, s, cfg) == ParseCompoundSpec(hs(sec), Through(EntryStep(hs), s, p), n)
  {
    ChainFailsAt(EntryStep(hs), s, p, n, q, 0);
  }

  /**
   * On a compound top node the parse reports 0 exactly when no recognised
   * section failed; otherwise it reports the first failure's (negative) code.
   */
  lemma ParseConfigResult(hs: Section -> Handler, s: Lists, cfg: Config)
    requires cfg.kind == Compound
    ensures ParseConfigSpec(hs, s, cfg).0 <= 0
    ensures ParseConfigSpec(hs, s, cfg).0 == 0 <==> Survives(EntryStep(hs), s, cfg.children)
  {
    var step := EntryStep(hs);
    ChainCases(step, s, cfg.children, 0);
    if Survives(step, s, cfg.children) {
      ChainSurvives(step, s, cfg.children, 0);
      LastNonNegative(step, s, cfg.children, 0);
    }
  }

  // ---------------------------------------------------------------------------
  // tplg_build_integ

  /** The link passes (tplg_build_controls, tplg_build_widgets, tplg_build_pcm_dai, tplg_build_routes). */
  datatype LinkPass = BuildControls | BuildWidgets | BuildPcmDai(t: ParserType) | BuildRoutes

  type Pass = Lists -> (int, Lists)

  /** The order in which tplg_build_integ runs the passes. */
  const BuildOrder: seq<LinkPass> :=
    [BuildControls, BuildWidgets, BuildPcmDai(Pcm), BuildPcmDai(Be), BuildPcmDai(Cc), BuildRoutes]

  function PassStep(passes: LinkPass -> Pass): (step: (Lists, LinkPass) -> (int, Lists)) {
    (s: Lists, p: LinkPass) => passes(p)(s)
  }

  /** The effect of tplg_build_integ. */
  function BuildIntegSpec(passes: LinkPass -> Pass, s: Lists): (res: (int, Lists)) {
    Chain(PassStep(passes), s, BuildOrder, 0)
  }

  /** One step of Chain, for straight-line call sequences. */
  lemma ChainStep<X>(step: (Lists, X) -> (int, Lists), s: Lists, xs: seq<X>, err: int, e: int, s1: Lists)
    requires xs != [] && (e, s1) == step(s, xs[0])
    ensures Chain(step, s, xs, err) == if e < 0 then (e, s1) else Chain(step, s1, xs[1..], e)
  {
  }

  /** tplg_build_integ: the six passes in order, the first error wins. */
  method BuildInteg(passes: LinkPass -> Pass, s: Lists) returns (err: int, s': Lists)
    ensures (err, s') == BuildIntegSpec(passes, s)
    ensures passes(BuildControls)(s).0 < 0 ==> (err, s') == passes(BuildControls)(s)
  {
    ghost var order := BuildOrder;
    var step := PassStep(passes);
    s' := s;
    var res1 := passes(BuildControls)(s');
    err, s' := res1.0, res1.1;
    ChainStep(step, s, order, 0, err, s');
    if err < 0 { return; }
    ghost var at := s';
    order := order[1..];
    var res2 := passes(BuildWidgets)(s');
    err, s' := res2.0, res2.1;
    ChainStep(step, at, order, 0, err, s');
    if err < 0 { return; }
    at, order := s', order[1..];
    var res3 := passes(BuildPcmDai(Pcm))(s');
    err, s' := res3.0, res3.1;
    ChainStep(step, at, order, 0, err, s');
    if err < 0 { return; }
    at, order := s', order[1..];
    var res4 := passes(BuildPcmDai(Be))(s');
    err, s' := res4.0, res4.1;
    ChainStep(step, at, order, 0, err, s');
    if err < 0 { return; }
    at, order := s', order[1..];
    var res5 := passes(BuildPcmDai(Cc))(s');
    err, s' := res5.0, res5.1;
    ChainStep(step, at, order, 0, err, s');
    if err < 0 { return; }
    at, order := s', order[1..];
    var res6 := passes(BuildRoutes)(s');
    err, s' := res6.0, res6.1;
    ChainStep(step, at, order, 0, err, s');
    if err < 0 { return; }
  }

  /**
   * When no pass fails, the link phase returns the route pass's result, and
   * the store is what the route pass leaves after the five earlier passes ran
   * in order.
   */
  lemma BuildIntegSucceeds(passes: LinkPass -> Pass, s: Lists)
    requires Survives(PassStep(passes), s, BuildOrder)
    ensures BuildIntegSpec(passes, s) == passes(BuildRoutes)(Through(PassStep(passes), s, BuildOrder[..5]))
    ensures BuildIntegSpec(passes, s).0 >= 0
  {
    ChainSurvives(PassStep(passes), s, BuildOrder, 0);
    LastIsFinalStep(PassStep(passes), s, BuildOrder, 0);
    LastNonNegative(PassStep(passes), s, BuildOrder, 0);
  }

  /**
   * The first failing pass decides the link phase: when the passes before
   * position k succeed and pass k fails, its result and store are returned,
   * and the passes after it never run.
   */
  lemma BuildIntegFailsAt(passes: LinkPass -> Pass, s: Lists, k: nat)
    requires k < |BuildOrder|
    requires Survives(PassStep(passes), s, BuildOrder[..k])
    requires passes(BuildOrder[k])(Through(PassStep(passes), s, BuildOrder[..k])).0 < 0
    ensures BuildIntegSpec(passes, s) == passes(BuildOrder[k])(Through(PassStep(passes), s, BuildOrder[..k]))
  {
    assert BuildOrder == BuildOrder[..k] + [BuildOrder[k]] + BuildOrder[k + 1..];
    ChainFailsAt(PassStep(passes), s, BuildOrder[..k], BuildOrder[k], BuildOrder[k + 1..], 0);
  }

  // ---------------------------------------------------------------------------
  // snd_tplg_build

  /**
   * The effect of snd_tplg_build on the element lists and the emitter state:
   * a new, empty output file; then parse; then link, only after a successful
   * parse; then write, only after a successful link.
   */
  function BuildSpec(hs: Section -> Handler, passes: LinkPass -> Pass, cfg: Config,
                     l: Lists, nextHdrPos: int): (res: (Status, Lists, EmitState))
  {
    var st := EmitState([], nextHdrPos);
    var (e1, l1) := ParseConfigSpec(hs, l, cfg);
    if e1 < 0 then (Ret(e1), l1, st)
    else
      var (e2, l2) := BuildIntegSpec(passes, l1);
      if e2 < 0 then (Ret(e2), l2, st)
      else
        var (r, st3) := WriteAll(st, Families(l2));
        (r, l2, st3)
  }

  /** snd_tplg_build, once the output file is open and the configuration loaded. */
  method Build(tplg: Tplg, cfg: Config, hs: Section -> Handler, passes: LinkPass -> Pass) returns (r: Status)
    modifies tplg
    ensures (r, tplg.lists, tplg.State()) == BuildSpec(hs, passes, cfg, old(tplg.lists), old(tplg.nextHdrPos))
  {
    // unlink and open: the build writes to a new, empty file
    tplg.out := [];
    var err, l := ParseConfig(hs, tplg.lists, cfg);
    tplg.lists := l;
    if err < 0 {
      return Ret(err);
    }
    err, l := BuildInteg(passes, tplg.lists);
    tplg.lists := l;
    if err < 0 {
      return Ret(err);
    }
    r := tplg.WriteData();
  }

  /** A failed parse is returned as is; no link pass runs and nothing is written. */
  lemma ParseFailureStops(hs: Section -> Handler, p1: LinkPass -> Pass, p2: LinkPass -> Pass,
                          cfg: Config, l: Lists, pos: int)
    requires ParseConfigSpec(hs, l, cfg).0 < 0
    ensures BuildSpec(hs, p1, cfg, l, pos) == BuildSpec(hs, p2, cfg, l, pos)
    ensures BuildSpec(hs, p1, cfg, l, pos).0 == Ret(ParseConfigSpec(hs, l, cfg).0)
    ensures BuildSpec(hs, p1, cfg, l, pos).2.out == []
  {
  }

  /** A failed link phase is returned as is, and nothing is written. */
  lemma LinkFailureStops(hs: Section -> Handler, passes: LinkPass -> Pass, cfg: Config, l: Lists, pos: int)
    requires ParseConfigSpec(hs, l, cfg).0 >= 0
    requires BuildIntegSpec(passes, ParseConfigSpec(hs, l, cfg).1).0 < 0
    ensures BuildSpec(hs, passes, cfg, l, pos).0 == Ret(BuildIntegSpec(passes, ParseConfigSpec(hs, l, cfg).1).0)
    ensures BuildSpec(hs, passes, cfg, l, pos).2.out == []
  {
  }

  /**
   * A build on a new context (next header expected at 0) whose parse and link
   * succeed returns 0 and writes a file that splits back
   * into exactly the emitted blocks.
   */
  lemma BuildFresh(hs: Section -> Handler, passes: LinkPass -> Pass, cfg: Config, l: Lists)
    requires ParseConfigSpec(hs, l, cfg).0 >= 0
    requires BuildIntegSpec(passes, ParseConfigSpec(hs, l, cfg).1).0 >= 0
    ensures var (r, l2, st) := BuildSpec(hs, passes, cfg, l, 0);
      r == Ret(0) && Format.Decode(st.out) == Some(EmittedBlocks(Families(l2)))
  {
    WriteDataFresh(BuildIntegSpec(passes, ParseConfigSpec(hs, l, cfg).1).1);
  }

  /**
   * next_hdr_pos is not reset by a build: on a context whose next header is
   * expected anywhere but 0, the new, empty file is off the expected offset,
   * and a build that would emit a block ends in an exit with nothing written.
   */
  lemma ReusedContextExits(hs: Section -> Handler, passes: LinkPass -> Pass, cfg: Config, l: Lists, pos: int)
    requires pos != 0
    requires ParseConfigSpec(hs, l, cfg).0 >= 0
    requires BuildIntegSpec(passes, ParseConfigSpec(hs, l, cfg).1).0 >= 0
    requires EmittedBlocks(Families(BuildIntegSpec(passes, ParseConfigSpec(hs, l, cfg).1).1)) != []
    ensures BuildSpec(hs, passes, cfg, l, pos).0 == Exit(-EINVAL)
    ensures BuildSpec(hs, passes, cfg, l, pos).2.out == []
  {
    var l1 := ParseConfigSpec(hs, l, cfg).1;
    var l2 := BuildIntegSpec(passes, l1).1;
    WriteDataReused(l2, pos);
  }
}
