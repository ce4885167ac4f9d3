/**
 The four part builders of the glob compiler. Each one looks at the kind
 of the last part and either extends or rewrites that part, or appends a
 new one; no builder touches any earlier part.
 */
module Builders {
  import opened Parts

  /**
   Adds one literal character: it joins the trailing literal run when
   there is one, and starts a new one-character run otherwise.
   */
  function PushFixed(ps: seq<Part>, c: char): (r: seq<Part>)
    ensures LastKind(ps) == Some(FixedKind) ==>
              && |r| == |ps|
              && r[..|ps| - 1] == ps[..|ps| - 1]
              && r[|ps| - 1] == Fixed(ps[|ps| - 1].text + [c])
    ensures LastKind(ps) != Some(FixedKind) ==> r == ps + [Fixed([c])]
    ensures LastKind(r) == Some(FixedKind)
    ensures WellFormed(ps) ==> WellFormed(r)
  {
    match LastKind(ps)
    case Some(FixedKind) =>
      var n := |ps| - 1;
      ReplaceLastKeepsWellFormed(ps, Fixed(ps[n].text + [c]));
      assert WellFormed(ps) && n > 0 ==> FollowsOk(ps, n);
      ps[..n] + [Fixed(ps[n].text + [c])]
    case _ =>
      AppendKeepsWellFormed(ps, Fixed([c]));
      ps + [Fixed([c])]
  }

  /** Adds a single-character wildcard, unless a Kleene already ends the sequence. */
  function PushWild(ps: seq<Part>): (r: seq<Part>)
    ensures LastKind(ps) == Some(KleeneKind) ==> r == ps
    ensures LastKind(ps) != Some(KleeneKind) ==> r == ps + [Wild]
    ensures r != [] && r[|r| - 1].KindOf() in {WildKind, KleeneKind}
    ensures WellFormed(ps) ==> WellFormed(r)
  {
    match LastKind(ps)
    case Some(KleeneKind) =>
      ps
    case _ =>
      AppendKeepsWellFormed(ps, Wild);
      ps + [Wild]
  }

  /**
   Adds a zero-or-more wildcard. A trailing Kleene absorbs it, a trailing
   Wild is turned into a Kleene in place, and otherwise a Kleene is appended.
   */
  function PushKleene(ps: seq<Part>): (r: seq<Part>)
    ensures LastKind(ps) == Some(KleeneKind) ==> r == ps
    ensures LastKind(ps) == Some(WildKind) ==>
              && |r| == |ps|
              && r[..|ps| - 1] == ps[..|ps| - 1]
              && r[|ps| - 1] == Kleene
    ensures LastKind(ps) !in {Some(KleeneKind), Some(WildKind)} ==> r == ps + [Kleene]
    ensures LastKind(r) == Some(KleeneKind)
    ensures WellFormed(ps) ==> WellFormed(r)
  {
    match LastKind(ps)
    case Some(KleeneKind) =>
      ps
    case Some(WildKind) =>
      var n := |ps| - 1;
      ReplaceLastKeepsWellFormed(ps, Kleene);
      assert WellFormed(ps) && n > 0 ==> FollowsOk(ps, n);
      ps[..n] + [Kleene]
    case _ =>
      AppendKeepsWellFormed(ps, Kleene);
      ps + [Kleene]
  }

  /**
   Adds one character of bracket-group text: it joins the trailing group
   when there is one, and starts a new one-character group otherwise.
   */
  function PushGroup(ps: seq<Part>, c: char): (r: seq<Part>)
    ensures LastKind(ps) == Some(GroupKind) ==>
              && |r| == |ps|
              && r[..|ps| - 1] == ps[..|ps| - 1]
              && r[|ps| - 1] == Group(ps[|ps| - 1].text + [c])
    ensures LastKind(ps) != Some(GroupKind) ==> r == ps + [Group([c])]
    ensures LastKind(r) == Some(GroupKind)
    ensures WellFormed(ps) ==> WellFormed(r)
  {
    match LastKind(ps)
    case Some(GroupKind) =>
      var n := |ps| - 1;
      ReplaceLastKeepsWellFormed(ps, Group(ps[n].text + [c]));
      assert WellFormed(ps) && n > 0 ==> FollowsOk(ps, n);
      ps[..n] + [Group(ps[n].text + [c])]
    case _ =>
      AppendKeepsWellFormed(ps, Group([c]));
      ps + [Group([c])]
  }

  /** A run of literal characters fed to PushFixed one after another. */
  function PushFixedAll(ps: seq<Part>, t: string): seq<Part>
    decreases |t|
  {
    if t == [] then ps else PushFixedAll(PushFixed(ps, t[0]), t[1..])
  }

  /** A run of group characters fed to PushGroup one after another. */
  function PushGroupAll(ps: seq<Part>, t: string): seq<Part>
    decreases |t|
  {
    if t == [] then ps else PushGroupAll(PushGroup(ps, t[0]), t[1..])
  }

  /** Literal characters pushed after a literal run all land in that run. */
  lemma {:induction false} PushFixedAllExtends(ps: seq<Part>, u: string, t: string)
    ensures PushFixedAll(ps + [Fixed(u)], t) == ps + [Fixed(u + t)]
    decreases |t|
  {
    if t == [] {
      assert u + t == u;
    } else {
      assert PushFixed(ps + [Fixed(u)], t[0]) == ps + [Fixed(u + [t[0]])];
      PushFixedAllExtends(ps, u + [t[0]], t[1..]);
      assert (u + [t[0]]) + t[1..] == u + t;
    }
  }

  /**
   A non-empty run of literal characters yields exactly one literal part
   holding the whole run: merged into the trailing literal run if there is
   one, appended as a new part otherwise.
   */
  lemma PushFixedAllShape(ps: seq<Part>, t: string)
    requires t != []
    ensures LastKind(ps) == Some(FixedKind) ==>
              PushFixedAll(ps, t) == ps[..|ps| - 1] + [Fixed(ps[|ps| - 1].text + t)]
    ensures LastKind(ps) != Some(FixedKind) ==> PushFixedAll(ps, t) == ps + [Fixed(t)]
  {
    if LastKind(ps) == Some(FixedKind) {
      var n := |ps| - 1;
      assert ps == ps[..n] + [Fixed(ps[n].text)];
      PushFixedAllExtends(ps[..n], ps[n].text, t);
    } else {
      PushFixedAllExtends(ps, [t[0]], t[1..]);
      assert [t[0]] + t[1..] == t;
    }
  }

  /** Group characters pushed after a group all land in that group. */
  lemma {:induction false} PushGroupAllExtends(ps: seq<Part>, u: string, t: string)
    ensures PushGroupAll(ps + [Group(u)], t) == ps + [Group(u + t)]
    decreases |t|
  {
    if t == [] {
      assert u + t == u;
    } else {
      assert PushGroup(ps + [Group(u)], t[0]) == ps + [Group(u + [t[0]])];
      PushGroupAllExtends(ps, u + [t[0]], t[1..]);
      assert (u + [t[0]]) + t[1..] == u + t;
    }
  }

  /**
   A non-empty run of group characters yields exactly one group part
   holding the whole run: merged into the trailing group if there is one
   (so `[ab][cd]` gives a single group), appended otherwise.
   */
  lemma PushGroupAllShape(ps: seq<Part>, t: string)
    requires t != []
    ensures LastKind(ps) == Some(GroupKind) ==>
              PushGroupAll(ps, t) == ps[..|ps| - 1] + [Group(ps[|ps| - 1].text + t)]
    ensures LastKind(ps) != Some(GroupKind) ==> PushGroupAll(ps, t) == ps + [Group(t)]
  {
    if LastKind(ps) == Some(GroupKind) {
      var n := |ps| - 1;
      assert ps == ps[..n] + [Group(ps[n].text)];
      PushGroupAllExtends(ps[..n], ps[n].text, t);
    } else {
      PushGroupAllExtends(ps, [t[0]], t[1..]);
      assert [t[0]] + t[1..] == t;
    }
  }
}
