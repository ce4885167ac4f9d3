/**
 Concrete compilations: the collapse, escape and group rules on small
 patterns, each stated with the warnings it reports.
 */
module Examples {
  import opened Parts
  import opened Builders
  import opened Transitions
  import opened Compiler

  /** Unfolds the reading of a string one character at a time. */
  lemma Unfold(cfg: Config, s: string)
    requires IsActive(cfg.state) && s != []
    ensures Run(cfg, s) == Run(Step(cfg, s[0]), s[1..])
  {
  }

  lemma EmptyPattern()
    ensures Compile("") == Config(Done, [], [])
  {
  }

  lemma LiteralAndStar()
    ensures Compile("a*b") == Config(Done, [Fixed("a"), Kleene, Fixed("b")], [])
  {
    RunAppend(Init, "a", "*b");
    assert "a" + "*b" == "a*b";
    Unfold(Init, "a");
    assert "a"[1..] == [];
    var c1 := Config(Normal, [Fixed("a")], []);
    TwoSteps(c1, '*', 'b');
    assert ['*', 'b'] == "*b";
  }

  /** Reads a two-character pattern as two single steps. */
  lemma {:induction false} TwoSteps(cfg: Config, a: char, b: char)
    requires IsActive(cfg.state)
    ensures Run(cfg, [a, b]) == Step(Step(cfg, a), b)
  {
    Unfold(cfg, [a, b]);
    assert [a, b][1..] == [b];
    Unfold(Step(cfg, a), [b]);
    assert [b][1..] == [];
  }

  /** `**` collapses to one Kleene. */
  lemma DoubleStar()
    ensures Compile("**") == Config(Done, [Kleene], [])
  {
    TwoSteps(Init, '*', '*');
    assert ['*', '*'] == "**";
  }

  /** `?*` collapses to one Kleene: the Wild is rewritten. */
  lemma WildThenStar()
    ensures Compile("?*") == Config(Done, [Kleene], [])
  {
    TwoSteps(Init, '?', '*');
    assert ['?', '*'] == "?*";
    assert [Wild][..0] + [Kleene] == [Kleene];
  }

  /** `*?` collapses to one Kleene: the Wild is dropped. */
  lemma StarThenWild()
    ensures Compile("*?") == Config(Done, [Kleene], [])
  {
    TwoSteps(Init, '*', '?');
    assert ['*', '?'] == "*?";
  }

  /** A Wild may precede a Kleene: only the Wild right before the `*` is rewritten. */
  lemma WildBeforeKleene()
    ensures Compile("??*") == Config(Done, [Wild, Kleene], [])
  {
    RunAppend(Init, "?", "?*");
    assert "?" + "?*" == "??*";
    Unfold(Init, "?");
    assert "?"[1..] == [];
    var c1 := Config(Normal, [Wild], []);
    TwoSteps(c1, '?', '*');
    assert ['?', '*'] == "?*";
    assert [Wild, Wild][..1] + [Kleene] == [Wild, Kleene];
  }

  lemma EscapedStar()
    ensures Compile("\\*") == Config(Done, [Fixed("*")], [])
  {
    EscapeOutsideGroup(Init, '*');
    assert ['\\', '*'] == "\\*";
  }

  lemma EscapedOrdinary()
    ensures Compile("\\a") == Config(Done, [Fixed("\\a")], [])
  {
    EscapeOutsideGroup(Init, 'a');
    assert ['\\', 'a'] == "\\a";
    assert [] + [Fixed("\\")] == [Fixed("\\")];
    assert PushFixed([Fixed("\\")], 'a') == [] + [Fixed("\\" + ['a'])];
    assert "\\" + ['a'] == "\\a";
  }

  /** A trailing backslash is kept as a literal, and is not reported. */
  lemma TrailingEscape()
    ensures Compile("x\\") == Config(Done, [Fixed("x\\")], [])
  {
    PlainPattern("x");
    TrailingBackslash("x");
    assert "x" + ['\\'] == "x\\";
    assert [] + [Fixed("x")] == [Fixed("x")];
    assert PushFixed([Fixed("x")], '\\') == [] + [Fixed("x" + ['\\'])];
    assert "x" + ['\\'] == "x\\";
  }

  lemma SimpleGroup()
    ensures Compile("[abc]") == Config(Done, [Group("abc")], [])
  {
    ClosedGroup(Init, "abc");
    assert "[" + "abc" + "]" == "[abc]";
  }

  lemma UnterminatedGroup()
    ensures Compile("[ab") == Config(Done, [Group("ab")], [UnfinishedGroup])
  {
    Unfold(Init, "[ab");
    assert "[ab"[1..] == "ab";
    var g := Init.(state := InGroup);
    GroupCharsRun(g, "ab");
    PushGroupAllShape([], "ab");
  }

  /** A stray `]` joins the surrounding literal run, with a warning. */
  lemma StrayClose()
    ensures Compile("a]b") == Config(Done, [Fixed("a]b")], [UnescapedClose])
  {
    Unfold(Init, "a]b");
    assert "a]b"[1..] == "]b";
    var c1 := Config(Normal, [Fixed("a")], []);
    Unfold(c1, "]b");
    assert "]b"[1..] == "b";
    var c2 := Config(Normal, [Fixed("a]")], [UnescapedClose]);
    assert [] + [Fixed("a")] == [Fixed("a")];
    assert PushFixed([Fixed("a")], ']') == [] + [Fixed("a" + [']'])];
    assert "a" + [']'] == "a]";
    assert Step(c1, ']') == c2;
    Unfold(c2, "b");
    assert "b"[1..] == "";
    assert [] + [Fixed("a]")] == [Fixed("a]")];
    assert PushFixed([Fixed("a]")], 'b') == [] + [Fixed("a]" + ['b'])];
    assert "a]" + ['b'] == "a]b";
  }

  lemma FirstGroup()
    ensures Run(Init, "[ab]") == Config(Normal, [Group("ab")], [])
  {
    ClosedGroup(Init, "ab");
    assert "[" + "ab" + "]" == "[ab]";
  }

  lemma SecondGroup()
    ensures Run(Config(Normal, [Group("ab")], []), "[cd]") == Config(Normal, [Group("abcd")], [])
  {
    var mid := Config(Normal, [Group("ab")], []);
    ClosedGroup(mid, "cd");
    assert "[" + "cd" + "]" == "[cd]";
    assert mid.parts[..0] == [];
    assert "ab" + "cd" == "abcd";
    assert [] + [Group("abcd")] == [Group("abcd")];
  }

  /** Two groups in a row merge into one group. */
  lemma {:induction false} AdjacentGroups()
    ensures Compile("[ab][cd]") == Config(Done, [Group("abcd")], [])
  {
    RunAppend(Init, "[ab]", "[cd]");
    assert "[ab]" + "[cd]" == "[ab][cd]";
    FirstGroup();
    SecondGroup();
  }
}
