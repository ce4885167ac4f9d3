/**
 The character classifier, the fixed state x class transition table, and
 the interpreter of its transition codes. States are small integers as in
 the compiler: 0 Normal, 1 Escape, 2 InGroup, 3 GroupEscape, -1 Done.
 */
module Transitions {
  import opened Parts
  import opened Builders

  const Normal := 0
  const Escape := 1
  const InGroup := 2
  const GroupEscape := 3
  const Done := -1

  /** The column of the table reserved for the end of the input. */
  const EndOfInput := 6

  /** The three conditions the compiler reports; none of them stops it. */
  datatype Warning = UnescapedClose | UnescapedOpenInGroup | UnfinishedGroup
  {
    /** The text the compiler reports for the condition. */
    function Message(): string {
      match this
      case UnescapedClose => "Unescaped ]"
      case UnescapedOpenInGroup => "Unescaped [ in group"
      case UnfinishedGroup => "Unfinished group"
    }
  }

  /** A state in which a further input character may be read. */
  predicate IsActive(state: int) {
    0 <= state < 4
  }

  /** The five characters with a meaning of their own in a glob pattern. */
  predicate IsSpecial(c: char) {
    c == '\\' || c == '[' || c == ']' || c == '*' || c == '?'
  }

  /** The characters a backslash genuinely escapes inside a bracket group. */
  predicate IsGroupSpecial(c: char) {
    c == '\\' || c == '[' || c == ']'
  }

  /**
   Everything a compilation carries from one transition to the next: the
   state, the parts built so far, and the warnings reported so far.
   */
  datatype Config = Config(state: int, parts: seq<Part>, log: seq<Warning>)

  /** The configuration a compilation starts from. */
  const Init := Config(Normal, [], [])

  /** The column of the transition table that a character selects. */
  function Hash(c: char): (r: int)
    ensures 0 <= r <= 5
    ensures r == 0 <==> c == '\\'
    ensures r == 1 <==> c == '['
    ensures r == 2 <==> c == ']'
    ensures r == 3 <==> c == '*'
    ensures r == 4 <==> c == '?'
    ensures r == 5 <==> !IsSpecial(c)
  {
    match c
    case '\\' => 0
    case '[' => 1
    case ']' => 2
    case '*' => 3
    case '?' => 4
    case _ => 5
  }

  /** Rows: states 0..3; columns: `\ [ ] * ?`, any other character, end of input. */
  const TransitionTable: seq<seq<int>> := [
    [ 0,  1,  2,  3,  4,  5,  6],
    [ 7,  7,  7,  7,  7,  8,  9],
    [10, 11, 12, 13, 13, 13, 14],
    [15, 15, 15, 16, 16, 16, 14]
  ]

  /**
   Reads the table. Every entry is one of the codes 0..16; the codes that
   end the compilation (6, 9, 14) sit exactly in the end-of-input column.
   */
  function Lookup(state: int, column: int): (code: int)
    requires IsActive(state) && 0 <= column <= EndOfInput
    ensures 0 <= code <= 16
    ensures column == EndOfInput <==> code in {6, 9, 14}
  {
    TransitionTable[state][column]
  }

  /** Carries out one transition code on the configuration. */
  function DoTransition(code: int, input: char, cfg: Config): (r: Config)
    ensures code in {6, 9, 14} ==> r.state == Done
    ensures IsActive(cfg.state) && 0 <= code <= 16 && code !in {6, 9, 14} ==> IsActive(r.state)
  {
    var ps := cfg.parts;
    match code
    case 0 => cfg.(state := Escape)
    case 1 => cfg.(state := InGroup)
    case 2 => cfg.(parts := PushFixed(ps, input), log := cfg.log + [UnescapedClose])
    case 3 => cfg.(parts := PushKleene(ps))
    case 4 => cfg.(parts := PushWild(ps))
    case 5 => cfg.(parts := PushFixed(ps, input))
    case 6 => cfg.(state := Done)
    case 7 => cfg.(state := Normal, parts := PushFixed(ps, input))
    case 8 => cfg.(state := Normal, parts := PushFixed(PushFixed(ps, '\\'), input))
    case 9 => cfg.(state := Done, parts := PushFixed(ps, '\\'))
    case 10 => cfg.(state := GroupEscape)
    case 11 => cfg.(parts := PushGroup(ps, input), log := cfg.log + [UnescapedOpenInGroup])
    case 12 => cfg.(state := Normal)
    case 13 => cfg.(parts := PushGroup(ps, input))
    case 14 => cfg.(state := Done, log := cfg.log + [UnfinishedGroup])
    case 15 => cfg.(state := InGroup, parts := PushGroup(ps, input))
    case 16 => cfg.(state := InGroup, parts := PushGroup(PushGroup(ps, '\\'), input))
    case _ => cfg
  }

  /**
   Reads one input character through the table. The state stays readable,
   the part invariant is kept, and a warning is reported exactly for a `]`
   read in Normal and a `[` read in InGroup.
   */
  function Step(cfg: Config, ch: char): (r: Config)
    requires IsActive(cfg.state)
    ensures IsActive(r.state)
    ensures WellFormed(cfg.parts) ==> WellFormed(r.parts)
    ensures cfg.state == Normal && ch == ']' ==> r.log == cfg.log + [UnescapedClose]
    ensures cfg.state == InGroup && ch == '[' ==> r.log == cfg.log + [UnescapedOpenInGroup]
    ensures !(cfg.state == Normal && ch == ']') && !(cfg.state == InGroup && ch == '[') ==>
              r.log == cfg.log
  {
    DoTransition(Lookup(cfg.state, Hash(ch)), ch, cfg)
  }

  /** The Normal row of the table: what one step pushes, reports and moves to. */
  lemma StepNormal(cfg: Config, ch: char)
    requires cfg.state == Normal
    ensures ch == '\\' ==> Step(cfg, ch) == cfg.(state := Escape)
    ensures ch == '[' ==> Step(cfg, ch) == cfg.(state := InGroup)
    ensures ch == ']' ==>
              Step(cfg, ch) == cfg.(parts := PushFixed(cfg.parts, ch), log := cfg.log + [UnescapedClose])
    ensures ch == '*' ==> Step(cfg, ch) == cfg.(parts := PushKleene(cfg.parts))
    ensures ch == '?' ==> Step(cfg, ch) == cfg.(parts := PushWild(cfg.parts))
    ensures !IsSpecial(ch) ==> Step(cfg, ch) == cfg.(parts := PushFixed(cfg.parts, ch))
  {
  }

  /** The Escape row: a special character loses its backslash, any other keeps it. */
  lemma StepEscape(cfg: Config, ch: char)
    requires cfg.state == Escape
    ensures IsSpecial(ch) ==> Step(cfg, ch) == Config(Normal, PushFixed(cfg.parts, ch), cfg.log)
    ensures !IsSpecial(ch) ==>
              Step(cfg, ch) == Config(Normal, PushFixed(PushFixed(cfg.parts, '\\'), ch), cfg.log)
  {
    if IsSpecial(ch) {
      assert Lookup(Escape, Hash(ch)) == 7;
    } else {
      assert Lookup(Escape, Hash(ch)) == 8;
    }
  }

  /** The InGroup row: what one step adds to the group, reports and moves to. */
  lemma StepInGroup(cfg: Config, ch: char)
    requires cfg.state == InGroup
    ensures ch == '\\' ==> Step(cfg, ch) == cfg.(state := GroupEscape)
    ensures ch == '[' ==>
              Step(cfg, ch) == cfg.(parts := PushGroup(cfg.parts, ch), log := cfg.log + [UnescapedOpenInGroup])
    ensures ch == ']' ==> Step(cfg, ch) == cfg.(state := Normal)
    ensures !IsGroupSpecial(ch) ==> Step(cfg, ch) == cfg.(parts := PushGroup(cfg.parts, ch))
  {
  }

  /** The GroupEscape row: only `\ [ ]` lose their backslash, and the group stays open. */
  lemma StepGroupEscape(cfg: Config, ch: char)
    requires cfg.state == GroupEscape
    ensures IsGroupSpecial(ch) ==> Step(cfg, ch) == Config(InGroup, PushGroup(cfg.parts, ch), cfg.log)
    ensures !IsGroupSpecial(ch) ==>
              Step(cfg, ch) == Config(InGroup, PushGroup(PushGroup(cfg.parts, '\\'), ch), cfg.log)
  {
    if IsGroupSpecial(ch) {
      assert Lookup(GroupEscape, Hash(ch)) == 15;
    } else {
      assert Lookup(GroupEscape, Hash(ch)) == 16;
    }
  }

  /**
   The one end-of-input transition. It always reaches Done; a pending
   escape becomes a literal backslash without a warning, and an open group
   is kept as it is with an "Unfinished group" warning.
   */
  function Finish(cfg: Config): (r: Config)
    requires IsActive(cfg.state)
    ensures r.state == Done
    ensures WellFormed(cfg.parts) ==> WellFormed(r.parts)
    ensures cfg.state == Normal ==> r == cfg.(state := Done)
    ensures cfg.state == Escape ==> r == Config(Done, PushFixed(cfg.parts, '\\'), cfg.log)
    ensures cfg.state in {InGroup, GroupEscape} ==>
              r == Config(Done, cfg.parts, cfg.log + [UnfinishedGroup])
  {
    DoTransition(Lookup(cfg.state, EndOfInput), '\0', cfg)
  }
}
