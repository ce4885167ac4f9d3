# Glob pattern compiler of joker, modelled in Dafny

joker's C extension compiles a shell glob pattern (`\`, `[...]`, `*`, `?`
and literal characters) into a compact list of pattern parts for a later
matcher. The compiler does no matching itself. This project models that
compiler, `ext/joker/compile.c`, and proves its collapse, escape and
warning rules.

- `parts.dfy` (module `Parts`): the part type `Fixed(text) | Wild | Kleene | Group(text)`,
  the kind of the last part, and the invariant `WellFormed` that every
  compiled sequence satisfies. The invariant says every Fixed and Group text
  is non-empty. It also forbids two adjacent Fixed parts, two adjacent Group
  parts, two adjacent Kleene parts, and a Kleene directly followed by a Wild.
- `builders.dfy` (module `Builders`): the four builders `push_fixed`,
  `push_wild`, `push_kleene` and `push_group`, as pure functions on the part
  sequence.
- `transitions.dfy` (module `Transitions`): the classifier `hash`, the
  4 × 7 transition table, the interpreter of transition codes 0–16
  (`do_transition`), one input step and the one end-of-input step.
- `compiler.dfy` (module `Compiler`): the driver `Wildcard_compile`. It is a
  pure fold (`Run`, then `Compile`), and also a loop over the table
  (`CompileLoop`). Lemmas cover escapes, groups, literal runs and warnings.
- `render.dfy` (module `Renderer`): the partner of the compiler. It writes a
  part sequence back out as a pattern. Every well-formed sequence compiles
  back from its rendering unchanged and without warnings. So the well-formed
  sequences are exactly the possible compilation results.
- `examples_lemmas.dfy` (module `Examples`): small concrete compilations.

Modelling decisions:

- **The last part.** The builders switch on the kind of the last part. This
  is `LastKind(ps)`: the kind of the final element of the part sequence, or
  `None` when the sequence is empty.
- **Extending a part.** "Add to current string/group" appends one character
  to the text of the last part.
- **States.** States stay small integers as in the C code: 0 Normal,
  1 Escape, 2 InGroup, 3 GroupEscape, -1 Done. The table is a literal
  sequence of sequences. Reading it therefore needs its state in 0..3, and
  the contracts show that this always holds.
- **Warnings.** A warning is appended to the `log` of the configuration
  instead of being printed.

Two behaviours of the code worth noting:

- **Trailing backslash.** A trailing backslash yields a literal `\` and no
  warning, because transition 9 (`compile.c:192-195`) reports nothing.
  `Examples.TrailingEscape` states this.
- **Wild before Kleene.** A Wild directly followed by a Kleene is possible.
  `??*` compiles to `[Wild, Kleene]`, because `push_kleene` rewrites only the
  last Wild. `WellFormed` therefore does not forbid that pair, and
  `Examples.WildBeforeKleene` states the case.

## Model

| member | source | states |
|---|---|---|
| Parts.LastKind | ext/joker/compile.c:63 | `None` exactly for the empty sequence, otherwise the kind of the final part; this stands for the field the builders switch on at compile.c:63, 90, 108 and 132 |
| Transitions.Hash | ext/joker/compile.c:16-34 | the column is in 0..5. It is 0, 1, 2, 3, 4 exactly for `\`, `[`, `]`, `*`, `?`, and 5 exactly for every other character |
| Builders.PushFixed | ext/joker/compile.c:55-81 | after a trailing literal run, the character is appended to that run and nothing else changes. Otherwise exactly one one-character Fixed part is appended. The result ends in a Fixed part and keeps the part invariant |
| Builders.PushWild | ext/joker/compile.c:84-99 | after a trailing Kleene the sequence is unchanged (`*?` is `*`). Otherwise exactly one Wild is appended. The part invariant is kept |
| Builders.PushKleene | ext/joker/compile.c:102-121 | after a trailing Kleene the sequence is unchanged. A trailing Wild is rewritten in place into a Kleene, so the length stays the same and earlier parts are untouched. Otherwise one Kleene is appended. The result ends in a Kleene and keeps the part invariant |
| Builders.PushGroup | ext/joker/compile.c:124-150 | after a trailing group, the character is appended to that group's text and nothing else changes. Otherwise exactly one one-character Group part is appended. The result ends in a Group and keeps the part invariant |
| Builders.PushFixedAllShape | ext/joker/compile.c:64-79 | a non-empty run of literal characters yields one Fixed part holding the whole run. It is merged into a trailing Fixed part, or appended when there is none |
| Builders.PushGroupAllShape | ext/joker/compile.c:132-148 | a non-empty run of group characters yields one Group part holding the whole run. It is merged into a trailing Group part, or appended when there is none |
| Transitions.Lookup | ext/joker/compile.c:234-240 | every table entry for states 0..3 is a code in 0..16. The codes that end compilation (6, 9, 14) appear exactly in the end-of-input column |
| Transitions.DoTransition | ext/joker/compile.c:153-224 | codes 6, 9 and 14 set the state to Done (-1). Every other code 0..16, applied in a readable state, leaves the state in 0..3 |
| Transitions.Step | ext/joker/compile.c:248-252 | reading one character through the table keeps the state in 0..3 and the part invariant. It adds "Unescaped ]" exactly for a `]` read in Normal, "Unescaped [ in group" exactly for a `[` read in InGroup, and no warning otherwise |
| Transitions.StepNormal | ext/joker/compile.c:236 | in Normal: `\` moves to Escape and `[` moves to InGroup, both pushing nothing. `]` pushes a literal `]` and reports it. `*` pushes a Kleene, `?` pushes a Wild, and any other character pushes itself as a literal. All of these except `\` and `[` stay in Normal |
| Transitions.StepEscape | ext/joker/compile.c:237 | in Escape: a special character is pushed as a literal without its backslash, and any other character is pushed after a literal `\`. Either way the state returns to Normal and nothing is reported |
| Transitions.StepInGroup | ext/joker/compile.c:238 | in InGroup: `\` moves to GroupEscape and `]` closes the group back to Normal, both pushing nothing. `[` is added to the group and reported. Every other character is added to the group silently |
| Transitions.StepGroupEscape | ext/joker/compile.c:239 | in GroupEscape: `\`, `[` and `]` are added to the group without the backslash. Any other character is added after a `\`. Either way the state returns to InGroup and nothing is reported |
| Transitions.Finish | ext/joker/compile.c:255-256 | the end-of-input step always reaches Done. From Escape it adds a literal `\` without a warning. From InGroup or GroupEscape it keeps the parts and reports "Unfinished group". From Normal it changes nothing else |
| Compiler.Run | ext/joker/compile.c:248-253 | reading any string keeps the state in 0..3, so every table lookup is in bounds. It keeps the part invariant. It only extends the warning log, and never with "Unfinished group" |
| Compiler.Compile | ext/joker/compile.c:227-257 | every pattern compiles to state Done with well-formed parts. "Unfinished group" is reported exactly when the input ends inside a group, and only as the last warning |
| Compiler.CompileLoop | ext/joker/compile.c:241-256 | the table-driven loop, with one extra end-of-input transition, computes the same result as `Compile`, ends in Done and yields well-formed parts |
| Compiler.RunAppend | ext/joker/compile.c:248-253 | reading `s1 + s2` is reading `s1` and then `s2` |
| Compiler.EscapeOutsideGroup | ext/joker/compile.c:183-191 | outside a group, `\` followed by `\ [ ] * ?` pushes only that character. Followed by any other character it pushes `\` and then the character. The state returns to Normal and nothing is reported |
| Compiler.TrailingBackslash | ext/joker/compile.c:192-195 | a pattern that ends in a lone `\` gets a literal `\` appended and no warning |
| Compiler.EscapeInsideGroup | ext/joker/compile.c:214-222 | inside a group, `\` followed by `\ [ ]` adds only that character to the group. Followed by anything else (`*` and `?` included) it adds `\` and the character. The state returns to InGroup and nothing is reported |
| Compiler.EmptyGroup | ext/joker/compile.c:203-205 | `[]` changes neither the parts nor the warnings |
| Compiler.GroupCharsRun | ext/joker/compile.c:206-208 | inside a group, characters other than `\ [ ]` each go to the group text, in order |
| Compiler.ClosedGroup | ext/joker/compile.c:132-139 | a closed group with plain text yields one Group part with that text. The part is appended after a non-group part and merged into a preceding group otherwise, and nothing is reported |
| Compiler.PlainRun | ext/joker/compile.c:177-179 | outside a group, non-special characters each go to the literal run, in order |
| Compiler.PlainPattern | ext/joker/compile.c:177-179 | a non-empty pattern without special characters compiles to a single Fixed part holding it, with no warning |
| Compiler.RunWithoutBrackets | ext/joker/compile.c:161-195 | without `[` and `]` in the input, the state stays Normal or Escape and nothing is reported |
| Compiler.NoBracketsNoWarnings | ext/joker/compile.c:166-170 | a pattern without `[` or `]` compiles without any warning |
| Renderer.RenderPartRun | ext/joker/compile.c:161-222 | rendering one part after a well-formed prefix and reading it outside a group appends exactly that part |
| Renderer.RenderFromRun | ext/joker/compile.c:248-253 | reading the rendering of a well-formed continuation appends exactly that continuation and reports nothing |
| Renderer.RoundTrip | ext/joker/compile.c:227-257 | every well-formed part sequence, rendered and compiled, comes back unchanged, in state Done and with no warning |
| Renderer.CompileRenderCompile | ext/joker/compile.c:227-257 | rendering a compilation result and compiling it again gives the same parts and no warning |
| Examples.EmptyPattern | ext/joker/compile.c:255-256 | the empty pattern compiles to no parts and no warning |
| Examples.LiteralAndStar | ext/joker/compile.c:171-179 | `a*b` compiles to `[Fixed("a"), Kleene, Fixed("b")]` |
| Examples.DoubleStar | ext/joker/compile.c:109-110 | `**` compiles to `[Kleene]` with no warning |
| Examples.WildThenStar | ext/joker/compile.c:111-114 | `?*` compiles to `[Kleene]` with no warning |
| Examples.StarThenWild | ext/joker/compile.c:91-92 | `*?` compiles to `[Kleene]` with no warning |
| Examples.WildBeforeKleene | ext/joker/compile.c:111-114 | `??*` compiles to `[Wild, Kleene]` |
| Examples.EscapedStar | ext/joker/compile.c:183-186 | `\*` compiles to `[Fixed("*")]` with no warning |
| Examples.EscapedOrdinary | ext/joker/compile.c:187-191 | `\a` compiles to `[Fixed("\a")]` |
| Examples.TrailingEscape | ext/joker/compile.c:192-195 | `x\` compiles to `[Fixed("x\")]` with no warning |
| Examples.SimpleGroup | ext/joker/compile.c:199-208 | `[abc]` compiles to `[Group("abc")]` |
| Examples.UnterminatedGroup | ext/joker/compile.c:209-213 | `[ab` compiles to `[Group("ab")]` with the single warning "Unfinished group" |
| Examples.StrayClose | ext/joker/compile.c:167-170 | `a]b` compiles to `[Fixed("a]b")]` with the single warning "Unescaped ]" |
| Examples.AdjacentGroups | ext/joker/compile.c:132-139 | `[ab][cd]` compiles to the single group `[Group("abcd")]` |

## Left out

- Array_enlarge and all raw storage (`malloc`, `memcpy`, `free`, NUL terminators, `length` fields, compile.c:37-52) are left out. Parts and texts are Dafny sequences. The C code is not a faithful append. At compile.c:51 `void*` arithmetic advances by bytes, not by entries. At compile.c:68 and compile.c:137 the new character is written at index `length-1`, overwriting the previous one. The model appends, as the comments at compile.c:64 and compile.c:133 describe.
- The field `wildcard->last` is never assigned in compile.c. The model reads "last" off the part sequence itself.
- `Wildcard_compile` (compile.c:227-232) initialises none of `last`, `length` or `parts`: all three come from the caller's `wildcard`. The model assumes the caller passes an empty Wildcard, so `Compile` always starts from `Init`, with no parts and no warnings. Compiling into a Wildcard that already holds parts is not modelled by `Compile`, although `Run` accepts any starting configuration.
- `jkwarn` prints to the console (compile.c:7-13). The model appends the message to the `log` field instead.
- The "throw ruby error" TODO (compile.c:212), `compile.h` and the Ruby extension binding are host glue that is not part of this model.
- C `char` signedness and width are not modelled. The input is a sequence of Dafny characters. The classifier only singles out five ASCII characters, so the classification is the same. The `len` argument is the length of the sequence.
- The NUL character passed as input to the end-of-input transition (compile.c:256) is never used by codes 6, 9 and 14. The model passes it through unchanged.
- Matching semantics are not modelled, including whether `?*` → `*` preserves meaning. This file only compiles.
