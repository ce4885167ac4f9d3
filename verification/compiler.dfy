/**
 The compiler driver: one pass over the pattern, one table transition per
 character, then exactly one end-of-input transition.
 */
module Compiler {
  import opened Parts
  import opened Builders
  import opened Transitions

  /**
   The transitions for a run of characters, read left to right. No
   character can end the compilation, so the state stays readable, the
   part invariant is kept, and warnings are only added, never the
   end-of-input "Unfinished group".
   */
  function Run(cfg: Config, s: string): (r: Config)
    requires IsActive(cfg.state)
    ensures IsActive(r.state)
    ensures WellFormed(cfg.parts) ==> WellFormed(r.parts)
    ensures cfg.log <= r.log
    ensures UnfinishedGroup !in cfg.log ==> UnfinishedGroup !in r.log
    decreases |s|
  {
    if s == [] then cfg else Run(Step(cfg, s[0]), s[1..])
  }

  /**
   Compiles a whole pattern. The result has reached Done, its parts are
   well formed, and "Unfinished group" is reported exactly when the input
   ends inside a group, as the last warning.
   */
  function Compile(s: string): (r: Config)
    ensures r.state == Done
    ensures WellFormed(r.parts)
    ensures (UnfinishedGroup in r.log) <==> Run(Init, s).state in {InGroup, GroupEscape}
    ensures UnfinishedGroup in r.log ==>
              r.log[|r.log| - 1] == UnfinishedGroup && UnfinishedGroup !in r.log[..|r.log| - 1]
  {
    Finish(Run(Init, s))
  }

  /** Reading `s1 + s2` is reading `s1` and then `s2`. */
  lemma {:induction false} RunAppend(cfg: Config, s1: string, s2: string)
    requires IsActive(cfg.state)
    ensures Run(cfg, s1 + s2) == Run(Run(cfg, s1), s2)
    decreases |s1|
  {
    if s1 == [] {
      assert s1 + s2 == s2;
    } else {
      assert (s1 + s2)[0] == s1[0];
      assert (s1 + s2)[1..] == s1[1..] + s2;
      RunAppend(Step(cfg, s1[0]), s1[1..], s2);
    }
  }

  /**
   The driver as a loop over a table, in the shape of `Wildcard_compile`: it
   looks the transition up for each character and never leaves the four
   readable rows of the table before the final end-of-input lookup.
   */
  method CompileLoop(s: string) returns (r: Config)
    ensures r == Compile(s)
    ensures r.state == Done
    ensures WellFormed(r.parts)
  {
    var cfg := Init;
    var p := 0;
    while p < |s|
      invariant 0 <= p <= |s|
      invariant IsActive(cfg.state)
      invariant cfg == Run(Init, s[..p])
    {
      var column := Hash(s[p]);
      var code := Lookup(cfg.state, column);
      RunAppend(Init, s[..p], [s[p]]);
      assert s[..p + 1] == s[..p] + [s[p]];
      cfg := DoTransition(code, s[p], cfg);
      p := p + 1;
    }
    assert s[..p] == s;
    var code := Lookup(cfg.state, EndOfInput);
    r := DoTransition(code, '\0', cfg);
  }

  /**
   Outside a group, a backslash followed by a special character yields
   only that character as a literal; followed by any other character it
   yields the backslash and the character. No warning either way.
   */
  lemma EscapeOutsideGroup(cfg: Config, c: char)
    requires cfg.state == Normal
    ensures IsSpecial(c) ==>
              Run(cfg, ['\\', c]) == cfg.(parts := PushFixed(cfg.parts, c))
    ensures !IsSpecial(c) ==>
              Run(cfg, ['\\', c]) == cfg.(parts := PushFixed(PushFixed(cfg.parts, '\\'), c))
  {
    RunAppend(cfg, ['\\'], [c]);
    assert ['\\'] + [c] == ['\\', c];
    StepNormal(cfg, '\\');
    StepEscape(cfg.(state := Escape), c);
  }

  /** A pattern ending in a lone backslash gets a literal backslash and no warning. */
  lemma {:induction false} TrailingBackslash(s: string)
    requires Run(Init, s).state == Normal
    ensures Compile(s + ['\\']).parts == PushFixed(Run(Init, s).parts, '\\')
    ensures Compile(s + ['\\']).log == Run(Init, s).log
  {
    RunAppend(Init, s, ['\\']);
    StepNormal(Run(Init, s), '\\');
    StepEscape(Run(Init, s).(state := Escape), '\\');
  }

  /**
   Inside a group, a backslash followed by `\`, `[` or `]` adds only that
   character to the group; followed by anything else (`*` and `?`
   included) it adds the backslash and the character. Either way the
   group stays open and nothing is reported.
   */
  lemma EscapeInsideGroup(cfg: Config, c: char)
    requires cfg.state == InGroup
    ensures Run(cfg, ['\\', c]).state == InGroup
    ensures Run(cfg, ['\\', c]).log == cfg.log
    ensures IsGroupSpecial(c) ==>
              Run(cfg, ['\\', c]).parts == PushGroup(cfg.parts, c)
    ensures !IsGroupSpecial(c) ==>
              Run(cfg, ['\\', c]).parts == PushGroup(PushGroup(cfg.parts, '\\'), c)
  {
    RunAppend(cfg, ['\\'], [c]);
    assert ['\\'] + [c] == ['\\', c];
    StepInGroup(cfg, '\\');
    StepGroupEscape(cfg.(state := GroupEscape), c);
  }

  /** Opening and at once closing a group changes nothing at all. */
  lemma EmptyGroup(cfg: Config)
    requires cfg.state == Normal
    ensures Run(cfg, "[]") == cfg
  {
    RunAppend(cfg, "[", "]");
    assert "[" + "]" == "[]";
    StepNormal(cfg, '[');
    StepInGroup(cfg.(state := InGroup), ']');
  }

  /** Characters that are plain inside a group, read inside a group, all join the group text. */
  lemma {:induction false} GroupCharsRun(cfg: Config, t: string)
    requires cfg.state == InGroup
    requires forall i :: 0 <= i < |t| ==> !IsGroupSpecial(t[i])
    ensures Run(cfg, t) == cfg.(parts := PushGroupAll(cfg.parts, t))
    decreases |t|
  {
    if t != [] {
      StepInGroup(cfg, t[0]);
      GroupCharsRun(cfg.(parts := PushGroup(cfg.parts, t[0])), t[1..]);
    }
  }

  /**
   A closed group whose text needs no escape, read outside a group,
   yields one group part with that text: appended when the last part is
   not a group, merged into the last part when it is. So `[ab][cd]` is a
   single group `abcd`.
   */
  lemma {:induction false} ClosedGroup(cfg: Config, t: string)
    requires cfg.state == Normal
    requires t != []
    requires forall i :: 0 <= i < |t| ==> !IsGroupSpecial(t[i])
    ensures Run(cfg, "[" + t + "]").state == Normal
    ensures Run(cfg, "[" + t + "]").log == cfg.log
    ensures LastKind(cfg.parts) != Some(GroupKind) ==>
              Run(cfg, "[" + t + "]").parts == cfg.parts + [Group(t)]
    ensures LastKind(cfg.parts) == Some(GroupKind) ==>
              Run(cfg, "[" + t + "]").parts
                == cfg.parts[..|cfg.parts| - 1] + [Group(cfg.parts[|cfg.parts| - 1].text + t)]
  {
    RunAppend(cfg, "[", t + "]");
    assert "[" + t + "]" == "[" + (t + "]");
    var g := cfg.(state := InGroup);
    RunAppend(g, t, "]");
    StepNormal(cfg, '[');
    GroupCharsRun(g, t);
    StepInGroup(Run(g, t), ']');
    PushGroupAllShape(cfg.parts, t);
  }

  /** Literal characters that need no escape, read outside a group, all join one literal run. */
  lemma {:induction false} PlainRun(cfg: Config, t: string)
    requires cfg.state == Normal
    requires forall i :: 0 <= i < |t| ==> !IsSpecial(t[i])
    ensures Run(cfg, t) == cfg.(parts := PushFixedAll(cfg.parts, t))
    decreases |t|
  {
    if t != [] {
      StepNormal(cfg, t[0]);
      PlainRun(cfg.(parts := PushFixed(cfg.parts, t[0])), t[1..]);
    }
  }

  /** A pattern with no special character compiles to one literal part holding it, silently. */
  lemma PlainPattern(t: string)
    requires t != []
    requires forall i :: 0 <= i < |t| ==> !IsSpecial(t[i])
    ensures Compile(t) == Config(Done, [Fixed(t)], [])
  {
    PlainRun(Init, t);
    PushFixedAllShape([], t);
  }

  /** While the pattern contains no bracket, the state never enters a group and nothing is reported. */
  lemma {:induction false} RunWithoutBrackets(cfg: Config, s: string)
    requires cfg.state == Normal || cfg.state == Escape
    requires forall i :: 0 <= i < |s| ==> s[i] != '[' && s[i] != ']'
    ensures Run(cfg, s).state == Normal || Run(cfg, s).state == Escape
    ensures Run(cfg, s).log == cfg.log
    decreases |s|
  {
    if s != [] {
      if cfg.state == Normal {
        StepNormal(cfg, s[0]);
      } else {
        StepEscape(cfg, s[0]);
      }
      RunWithoutBrackets(Step(cfg, s[0]), s[1..]);
    }
  }

  /** A pattern without `[` or `]` compiles without any warning. */
  lemma NoBracketsNoWarnings(s: string)
    requires forall i :: 0 <= i < |s| ==> s[i] != '[' && s[i] != ']'
    ensures Compile(s).log == []
  {
    RunWithoutBrackets(Init, s);
  }
}
