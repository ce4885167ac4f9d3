/**
 The inverse of the compiler: writing a part sequence back out as a glob
 pattern. Every well-formed part sequence is rendered to a pattern that
 compiles back to exactly that sequence without a warning, so the
 well-formed sequences are precisely the possible compilation results.
 */
module Renderer {
  import opened Parts
  import opened Builders
  import opened Transitions
  import opened Compiler

  /** Literal text with every special character preceded by a backslash. */
  function EscapeFixed(t: string): (p: string)
    ensures |t| <= |p|
    decreases |t|
  {
    if t == [] then []
    else (if IsSpecial(t[0]) then ['\\', t[0]] else [t[0]]) + EscapeFixed(t[1..])
  }

  /** Group text with each of `\ [ ]` preceded by a backslash. */
  function EscapeGroup(t: string): (p: string)
    ensures |t| <= |p|
    decreases |t|
  {
    if t == [] then []
    else (if IsGroupSpecial(t[0]) then ['\\', t[0]] else [t[0]]) + EscapeGroup(t[1..])
  }

  /**
   The pattern text of one part, given the kind of the part before it. A
   Kleene after a Wild is written `?*`: the `?` is a second Wild that the
   `*` then turns into the Kleene, since a bare `*` would absorb the Wild.
   */
  function RenderPart(prev: Option<Kind>, p: Part): string {
    match p
    case Fixed(t) => EscapeFixed(t)
    case Wild => "?"
    case Kleene => if prev == Some(WildKind) then "?*" else "*"
    case Group(t) => "[" + EscapeGroup(t) + "]"
  }

  /** The pattern text of a part sequence that follows a part of kind `prev`. */
  function RenderFrom(prev: Option<Kind>, ps: seq<Part>): string
    decreases |ps|
  {
    if ps == [] then [] else RenderPart(prev, ps[0]) + RenderFrom(Some(ps[0].KindOf()), ps[1..])
  }

  /** The pattern text of a whole part sequence. */
  function Render(ps: seq<Part>): string {
    RenderFrom(None, ps)
  }

  /** Escaped literal text, read outside a group, is pushed character by character. */
  lemma {:induction false} EscapedFixedRun(cfg: Config, t: string)
    requires cfg.state == Normal
    ensures Run(cfg, EscapeFixed(t)) == cfg.(parts := PushFixedAll(cfg.parts, t))
    decreases |t|
  {
    if t != [] {
      var head := if IsSpecial(t[0]) then ['\\', t[0]] else [t[0]];
      RunAppend(cfg, head, EscapeFixed(t[1..]));
      if IsSpecial(t[0]) {
        RunAppend(cfg, ['\\'], [t[0]]);
        assert ['\\'] + [t[0]] == head;
        StepNormal(cfg, '\\');
        StepEscape(cfg.(state := Escape), t[0]);
      } else {
        StepNormal(cfg, t[0]);
      }
      EscapedFixedRun(cfg.(parts := PushFixed(cfg.parts, t[0])), t[1..]);
    }
  }

  /** Escaped group text, read inside a group, is pushed character by character. */
  lemma {:induction false} EscapedGroupRun(cfg: Config, t: string)
    requires cfg.state == InGroup
    ensures Run(cfg, EscapeGroup(t)) == cfg.(parts := PushGroupAll(cfg.parts, t))
    decreases |t|
  {
    if t != [] {
      var head := if IsGroupSpecial(t[0]) then ['\\', t[0]] else [t[0]];
      RunAppend(cfg, head, EscapeGroup(t[1..]));
      if IsGroupSpecial(t[0]) {
        RunAppend(cfg, ['\\'], [t[0]]);
        assert ['\\'] + [t[0]] == head;
        StepInGroup(cfg, '\\');
        StepGroupEscape(cfg.(state := GroupEscape), t[0]);
      } else {
        StepInGroup(cfg, t[0]);
      }
      EscapedGroupRun(cfg.(parts := PushGroup(cfg.parts, t[0])), t[1..]);
    }
  }

  /** A literal part rendered after a non-literal part is appended as it is. */
  lemma FixedPartRun(cfg: Config, t: string)
    requires cfg.state == Normal
    requires t != [] && LastKind(cfg.parts) != Some(FixedKind)
    ensures Run(cfg, EscapeFixed(t)) == cfg.(parts := cfg.parts + [Fixed(t)])
  {
    EscapedFixedRun(cfg, t);
    PushFixedAllShape(cfg.parts, t);
  }

  /** A group part rendered after a non-group part is appended as it is. */
  lemma GroupPartRun(cfg: Config, t: string)
    requires cfg.state == Normal
    requires t != [] && LastKind(cfg.parts) != Some(GroupKind)
    ensures Run(cfg, "[" + EscapeGroup(t) + "]") == cfg.(parts := cfg.parts + [Group(t)])
  {
    RunAppend(cfg, "[", EscapeGroup(t) + "]");
    assert "[" + EscapeGroup(t) + "]" == "[" + (EscapeGroup(t) + "]");
    var g := cfg.(state := InGroup);
    RunAppend(g, EscapeGroup(t), "]");
    StepNormal(cfg, '[');
    EscapedGroupRun(g, t);
    StepInGroup(Run(g, EscapeGroup(t)), ']');
    PushGroupAllShape(cfg.parts, t);
  }

  /** A Kleene rendered after a Wild, as `?*`, is appended after that Wild. */
  lemma KleeneAfterWildRun(cfg: Config)
    requires cfg.state == Normal
    requires LastKind(cfg.parts) == Some(WildKind)
    ensures Run(cfg, "?*") == cfg.(parts := cfg.parts + [Kleene])
  {
    var ps := cfg.parts;
    RunAppend(cfg, "?", "*");
    assert "?" + "*" == "?*";
    StepNormal(cfg, '?');
    StepNormal(cfg.(parts := ps + [Wild]), '*');
    assert PushWild(ps) == ps + [Wild];
    assert (ps + [Wild])[..|ps|] == ps;
  }

  /** Reading the text of one part, outside a group, appends exactly that part. */
  lemma RenderPartRun(cfg: Config, p: Part)
    requires cfg.state == Normal
    requires WellFormed(cfg.parts + [p])
    ensures Run(cfg, RenderPart(LastKind(cfg.parts), p)) == cfg.(parts := cfg.parts + [p])
  {
    WellFormedLast(cfg.parts, p);
    match p
    case Fixed(t) =>
      FixedPartRun(cfg, t);
    case Wild =>
      StepNormal(cfg, '?');
    case Kleene =>
      if LastKind(cfg.parts) == Some(WildKind) {
        KleeneAfterWildRun(cfg);
      } else {
        StepNormal(cfg, '*');
      }
    case Group(t) =>
      GroupPartRun(cfg, t);
  }

  /** Splitting a well-formed sequence after its first continuation part. */
  lemma WellFormedSplit(acc: seq<Part>, ps: seq<Part>)
    requires ps != [] && WellFormed(acc + ps)
    ensures WellFormed(acc + [ps[0]])
    ensures (acc + [ps[0]]) + ps[1..] == acc + ps
  {
    assert (acc + ps)[..|acc| + 1] == acc + [ps[0]];
    WellFormedPrefix(acc + ps, |acc| + 1);
  }

  /** Reading the first part of a rendered continuation appends that part. */
  lemma {:induction false} RenderFromFirst(cfg: Config, ps: seq<Part>)
    requires cfg.state == Normal
    requires ps != [] && WellFormed(cfg.parts + [ps[0]])
    ensures Run(cfg, RenderFrom(LastKind(cfg.parts), ps))
              == Run(cfg.(parts := cfg.parts + [ps[0]]), RenderFrom(LastKind(cfg.parts + [ps[0]]), ps[1..]))
  {
    var p := ps[0];
    RunAppend(cfg, RenderPart(LastKind(cfg.parts), p), RenderFrom(Some(p.KindOf()), ps[1..]));
    RenderPartRun(cfg, p);
  }

  /**
   Reading the rendering of a well-formed continuation, outside a group,
   appends exactly that continuation and reports nothing.
   */
  lemma {:induction false} RenderFromRun(cfg: Config, ps: seq<Part>)
    requires cfg.state == Normal
    requires WellFormed(cfg.parts + ps)
    ensures Run(cfg, RenderFrom(LastKind(cfg.parts), ps)) == cfg.(parts := cfg.parts + ps)
    decreases |ps|
  {
    if ps == [] {
      assert cfg.parts + ps == cfg.parts;
    } else {
      WellFormedSplit(cfg.parts, ps);
      RenderFromFirst(cfg, ps);
      RenderFromRun(cfg.(parts := cfg.parts + [ps[0]]), ps[1..]);
    }
  }

  /**
   Round trip: a well-formed part sequence, rendered and compiled again,
   comes back unchanged and without a warning.
   */
  lemma RoundTrip(ps: seq<Part>)
    requires WellFormed(ps)
    ensures Compile(Render(ps)) == Config(Done, ps, [])
  {
    assert [] + ps == ps;
    RenderFromRun(Init, ps);
  }

  /**
   Compiling is idempotent through the inverse: rendering a compilation
   result and compiling that gives the same parts, with no warning.
   */
  lemma CompileRenderCompile(s: string)
    ensures Compile(Render(Compile(s).parts)).parts == Compile(s).parts
    ensures Compile(Render(Compile(s).parts)).log == []
  {
    RoundTrip(Compile(s).parts);
  }
}
