/**
 The compiled form of a glob pattern: an ordered sequence of pattern parts.
 A part is a literal run, a single-character wildcard, a zero-or-more
 wildcard, or the raw text of a bracket group.
 */
module Parts {

  datatype Option<T> = None | Some(value: T)

  /** The four kinds of part; the builders switch on the kind of the last part. */
  datatype Kind = FixedKind | WildKind | KleeneKind | GroupKind

  /** One pattern part. `Fixed` and `Group` carry text, the wildcards do not. */
  datatype Part = Fixed(text: string) | Wild | Kleene | Group(text: string)
  {
    function KindOf(): Kind {
      match this
      case Fixed(_) => FixedKind
      case Wild => WildKind
      case Kleene => KleeneKind
      case Group(_) => GroupKind
    }
  }

  /** The kind of the final part, or None when nothing has been compiled yet. */
  function LastKind(ps: seq<Part>): (k: Option<Kind>)
    ensures k.None? <==> ps == []
    ensures k.Some? ==> k.value == ps[|ps| - 1].KindOf()
  {
    if ps == [] then None else Some(ps[|ps| - 1].KindOf())
  }

  /** A part carrying text carries at least one character. */
  predicate HasText(p: Part) {
    (p.Fixed? || p.Group?) ==> |p.text| > 0
  }

  /**
   Which neighbours the builders never produce: two literal runs, two
   groups or two Kleenes in a row, and a Wild right after a Kleene.
   A Wild directly before a Kleene is allowed (`??*` compiles to it).
   */
  predicate AdjacentOk(a: Part, b: Part) {
    && !(a.Fixed? && b.Fixed?)
    && !(a.Group? && b.Group?)
    && !(a.Kleene? && b.Kleene?)
    && !(a.Kleene? && b.Wild?)
  }

  /** The part at position `i` may follow the part before it. */
  predicate FollowsOk(ps: seq<Part>, i: int)
    requires 0 < i < |ps|
  {
    AdjacentOk(ps[i - 1], ps[i])
  }

  /** The invariant every compiled part sequence satisfies. */
  predicate WellFormed(ps: seq<Part>) {
    && (forall i :: 0 <= i < |ps| ==> HasText(ps[i]))
    && (forall i :: 0 < i < |ps| ==> FollowsOk(ps, i))
  }

  /** Appending a part with text, allowed after the current last part, keeps the invariant. */
  lemma AppendKeepsWellFormed(ps: seq<Part>, p: Part)
    ensures (WellFormed(ps) && HasText(p) && (ps != [] ==> AdjacentOk(ps[|ps| - 1], p)))
            ==> WellFormed(ps + [p])
  {
    var r := ps + [p];
    if WellFormed(ps) && HasText(p) && (ps != [] ==> AdjacentOk(ps[|ps| - 1], p)) {
      forall i | 0 <= i < |r| ensures HasText(r[i]) {
        if i < |ps| { assert r[i] == ps[i]; }
      }
      forall i | 0 < i < |r| ensures FollowsOk(r, i) {
        if i < |ps| { assert FollowsOk(ps, i); }
      }
    }
  }

  /**
   Replacing the last part by one with text, allowed after the part before
   it, keeps the invariant.
   */
  lemma ReplaceLastKeepsWellFormed(ps: seq<Part>, p: Part)
    requires ps != []
    ensures (WellFormed(ps) && HasText(p) && (|ps| > 1 ==> AdjacentOk(ps[|ps| - 2], p)))
            ==> WellFormed(ps[..|ps| - 1] + [p])
  {
    var n := |ps| - 1;
    if WellFormed(ps) && HasText(p) && (|ps| > 1 ==> AdjacentOk(ps[|ps| - 2], p)) {
      var r := ps[..n] + [p];
      forall i | 0 <= i < |r| ensures HasText(r[i]) {
        if i < n { assert r[i] == ps[i]; }
      }
      forall i | 0 < i < |r| ensures FollowsOk(r, i) {
        if i < n { assert FollowsOk(ps, i); }
      }
    }
  }

  /** The parts of a well-formed sequence, its last part and their adjacency. */
  lemma WellFormedLast(ps: seq<Part>, p: Part)
    requires WellFormed(ps + [p])
    ensures WellFormed(ps)
    ensures HasText(p)
    ensures ps != [] ==> AdjacentOk(ps[|ps| - 1], p)
  {
    var r := ps + [p];
    assert r[|ps|] == p;
    forall i | 0 <= i < |ps| ensures HasText(ps[i]) {
      assert r[i] == ps[i];
    }
    forall i | 0 < i < |ps| ensures FollowsOk(ps, i) {
      assert FollowsOk(r, i);
    }
    if ps != [] {
      assert FollowsOk(r, |ps|);
    }
  }

  /** Every prefix of a well-formed sequence is well formed. */
  lemma WellFormedPrefix(ps: seq<Part>, n: nat)
    requires WellFormed(ps) && n <= |ps|
    ensures WellFormed(ps[..n])
  {
    var r := ps[..n];
    forall i | 0 <= i < n ensures HasText(r[i]) {
      assert r[i] == ps[i];
    }
    forall i | 0 < i < n ensures FollowsOk(r, i) {
      assert FollowsOk(ps, i);
    }
  }
}
