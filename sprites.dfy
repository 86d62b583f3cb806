/** The moving objects of the arena (bullets, enemies, obstacles) and the
    pass that visits a list of them with forEach while splicing out the ones
    that leave the canvas or are hit.

    forEach visits index k = 0, 1, ... while k is below both the length at
    the start and the current length. A splice(k, 1) shifts the next element
    into slot k, and the pass then moves on to k + 1: the element right after
    a removed one is neither moved nor tested in that pass. Sweep states the
    outcome of such a pass on the original list. */
module Sprites {
  import opened Geometry

  /** Colours are opaque strings ("red", "gray", "#A1B2C3"). */
  type Color = string

  datatype Entity = Entity(x: real, y: real, width: real, height: real, color: Color, dy: real)

  function Bounds(e: Entity): Rect { Rect(e.x, e.y, e.width, e.height) }

  /** One frame of vertical motion. */
  function Moved(e: Entity): (r: Entity)
    ensures r.y - e.y == r.dy == e.dy
    ensures r.x == e.x && r.width == e.width && r.height == e.height && r.color == e.color
  {
    e.(y := e.y + e.dy)
  }

  datatype Edge = Top | Bottom

  /** What a pass does to each element it visits. Exit(edge) moves it by dy
      and removes it once it is past that edge of the canvas; Contact(target)
      leaves it where it is and removes it when target overlaps it. */
  datatype Rule = Exit(edge: Edge) | Contact(target: Rect)

  function Visit(e: Entity, rule: Rule): Entity
  {
    match rule
    case Exit(_) => Moved(e)
    case Contact(_) => e
  }

  /** Whether the visited element v is spliced out. A bullet leaves when its
      bottom is above the canvas; an enemy or obstacle leaves when its top is
      below the canvas. An element leaves at an edge only once it is wholly
      off the canvas, and one wholly within the canvas rows never leaves. */
  predicate Drops(v: Entity, rule: Rule): (r: bool)
    ensures rule.Exit? && r ==> !Overlaps(Bounds(v), Canvas)
    ensures rule.Exit? && 0.0 <= v.height && 0.0 <= v.y && v.y + v.height <= ArenaHeight ==> !r
  {
    match rule
    case Exit(Top) => v.y + v.height < 0.0
    case Exit(Bottom) => v.y > ArenaHeight
    case Contact(target) => Overlaps(target, Bounds(v))
  }

  /** How many elements a pass over s splices out. Each removal makes the
      pass skip the next element, so at most every other element goes. */
  function Removed(s: seq<Entity>, rule: Rule): (r: nat)
    ensures 2 * r <= |s| + 1
    decreases |s|
  {
    if s == [] then 0
    else if !Drops(Visit(s[0], rule), rule) then Removed(s[1..], rule)
    else if |s| == 1 then 1
    else 1 + Removed(s[2..], rule)
  }

  /** The list after one forEach-with-splice pass over s: a kept element is
      replaced by its visited form; a dropped one disappears and the element
      after it stays as it was. */
  function Sweep(s: seq<Entity>, rule: Rule): (r: seq<Entity>)
    ensures |r| + Removed(s, rule) == |s|
    decreases |s|
  {
    if s == [] then []
    else if !Drops(Visit(s[0], rule), rule) then [Visit(s[0], rule)] + Sweep(s[1..], rule)
    else if |s| == 1 then []
    else [s[1]] + Sweep(s[2..], rule)
  }

  /** r can come out of a pass over s that adds nothing and keeps the order:
      each element of s is kept as it was, kept in its visited form (only if
      that form is not dropped), or removed (only if its visited form is
      dropped). */
  ghost predicate Swept(r: seq<Entity>, s: seq<Entity>, rule: Rule)
    decreases |s|
  {
    if s == [] then r == []
    else
      (r != [] && (r[0] == s[0] || (r[0] == Visit(s[0], rule) && !Drops(r[0], rule)))
                && Swept(r[1..], s[1..], rule))
      || (Drops(Visit(s[0], rule), rule) && Swept(r, s[1..], rule))
  }

  /** A pass never adds elements, keeps the survivors in their original
      order, and removes an element only when its visited form met the
      removal condition. */
  lemma {:induction false} SweepIsSwept(s: seq<Entity>, rule: Rule)
    ensures Swept(Sweep(s, rule), s, rule)
    decreases |s|
  {
    if s == [] {
    } else if !Drops(Visit(s[0], rule), rule) {
      SweepIsSwept(s[1..], rule);
    } else if |s| == 1 {
      assert Swept([], s[1..], rule);
    } else {
      SweepIsSwept(s[2..], rule);
      var r := Sweep(s, rule);
      assert r[0] == s[1..][0] && r[1..] == Sweep(s[1..][1..], rule);
      assert Swept(r, s[1..], rule);
    }
  }

  /** Every element after a pass is an element from before it, or the
      visited form of one that was not dropped. */
  lemma {:induction false} SweptFrom(r: seq<Entity>, s: seq<Entity>, rule: Rule)
    requires Swept(r, s, rule)
    ensures forall e :: e in r ==> e in s || (!Drops(e, rule) && exists o :: o in s && e == Visit(o, rule))
    decreases |s|
  {
    if s != [] {
      if r != [] && (r[0] == s[0] || (r[0] == Visit(s[0], rule) && !Drops(r[0], rule)))
         && Swept(r[1..], s[1..], rule) {
        SweptFrom(r[1..], s[1..], rule);
        forall e | e in r
          ensures e in s || (!Drops(e, rule) && exists o :: o in s && e == Visit(o, rule))
        {
          if e != r[0] {
            assert e in r[1..];
            if e !in s[1..] {
              var o :| o in s[1..] && e == Visit(o, rule);
              assert o in s;
            }
          } else if e != s[0] {
            assert s[0] in s;
          }
        }
      } else {
        SweptFrom(r, s[1..], rule);
        forall e | e in r
          ensures e in s || (!Drops(e, rule) && exists o :: o in s && e == Visit(o, rule))
        {
          if e !in s[1..] {
            var o :| o in s[1..] && e == Visit(o, rule);
            assert o in s;
          }
        }
      }
    }
  }

  /** When no visited element is dropped, the pass visits every element and
      nothing is skipped: each element is replaced by its visited form. */
  lemma {:induction false} SweepWithoutDrops(s: seq<Entity>, rule: Rule)
    requires forall i :: 0 <= i < |s| ==> !Drops(Visit(s[i], rule), rule)
    ensures |Sweep(s, rule)| == |s| && Removed(s, rule) == 0
    ensures forall i :: 0 <= i < |s| ==> Sweep(s, rule)[i] == Visit(s[i], rule)
    decreases |s|
  {
    if s != [] {
      assert !Drops(Visit(s[0], rule), rule);
      assert forall i :: 0 <= i < |s[1..]| ==> s[1..][i] == s[i + 1];
      SweepWithoutDrops(s[1..], rule);
    }
  }

  /** The part of the list a pass at index k has already passed, and the part
      still ahead of it (index k may run one past the end after a splice of
      the last element). */
  function Done(cur: seq<Entity>, k: nat): seq<Entity> { if k <= |cur| then cur[..k] else cur }
  function Pending(cur: seq<Entity>, k: nat): seq<Entity> { if k <= |cur| then cur[k..] else [] }

  /** The list after the visit of index k: the element is replaced by its
      visited form, then spliced out if that form is dropped. */
  function Splice(cur: seq<Entity>, k: nat, rule: Rule): (r: seq<Entity>)
    requires k < |cur|
    ensures |r| == if Drops(Visit(cur[k], rule), rule) then |cur| - 1 else |cur|
    ensures forall i :: 0 <= i < |r| && i != k ==> r[i] == cur[if i < k then i else i + |cur| - |r|]
    ensures !Drops(Visit(cur[k], rule), rule) ==> r[k] == Visit(cur[k], rule)
  {
    var v := Visit(cur[k], rule);
    var written := cur[k := v];
    if Drops(v, rule) then written[..k] + written[k + 1..] else written
  }

  /** One visit of a forEach-with-splice loop preserves the outcome promised
      by Sweep and accounts for its removal. */
  lemma SweepStep(cur: seq<Entity>, k: nat, rule: Rule)
    requires k < |cur|
    ensures Done(Splice(cur, k, rule), k + 1) + Sweep(Pending(Splice(cur, k, rule), k + 1), rule)
            == Done(cur, k) + Sweep(Pending(cur, k), rule)
    ensures Removed(Pending(cur, k), rule)
            == Removed(Pending(Splice(cur, k, rule), k + 1), rule) + (if Drops(Visit(cur[k], rule), rule) then 1 else 0)
  {
    if Drops(Visit(cur[k], rule), rule) {
      SweepStepDropped(cur, k, rule);
    } else {
      SweepStepKept(cur, k, rule);
    }
  }

  /** A kept element is written back in its visited form and the pass moves
      on to the next one. */
  lemma SweepStepKept(cur: seq<Entity>, k: nat, rule: Rule)
    requires k < |cur| && !Drops(Visit(cur[k], rule), rule)
    ensures Done(Splice(cur, k, rule), k + 1) + Sweep(Pending(Splice(cur, k, rule), k + 1), rule)
            == Done(cur, k) + Sweep(Pending(cur, k), rule)
    ensures Removed(Pending(cur, k), rule) == Removed(Pending(Splice(cur, k, rule), k + 1), rule)
  {
    var next := Splice(cur, k, rule);
    var rest := cur[k..];
    assert rest[0] == cur[k] && rest[1..] == cur[k + 1..];
    assert next[..k + 1] == cur[..k] + [Visit(cur[k], rule)];
    assert next[k + 1..] == cur[k + 1..];
  }

  /** A dropped element is spliced out; the next element shifts into its
      slot, which the pass has already passed, so it is skipped. */
  lemma SweepStepDropped(cur: seq<Entity>, k: nat, rule: Rule)
    requires k < |cur| && Drops(Visit(cur[k], rule), rule)
    ensures Done(Splice(cur, k, rule), k + 1) + Sweep(Pending(Splice(cur, k, rule), k + 1), rule)
            == Done(cur, k) + Sweep(Pending(cur, k), rule)
    ensures Removed(Pending(cur, k), rule) == Removed(Pending(Splice(cur, k, rule), k + 1), rule) + 1
  {
    if k + 1 < |cur| {
      SweepStepSkips(cur, k, rule);
    } else {
      assert Splice(cur, k, rule) == cur[..k] && cur[k..] == [cur[k]];
    }
  }

  /** A dropped element with a successor: the successor shifts into slot k
      and is skipped. */
  lemma SweepStepSkips(cur: seq<Entity>, k: nat, rule: Rule)
    requires k + 1 < |cur| && Drops(Visit(cur[k], rule), rule)
    ensures Done(Splice(cur, k, rule), k + 1) + Sweep(Pending(Splice(cur, k, rule), k + 1), rule)
            == Done(cur, k) + Sweep(Pending(cur, k), rule)
    ensures Removed(Pending(cur, k), rule) == Removed(Pending(Splice(cur, k, rule), k + 1), rule) + 1
  {
    SpliceShifts(cur, k, rule);
    SweepSkips(cur, k, rule);
    Regroup(cur[..k], cur[k + 1], Sweep(cur[k + 2..], rule), Sweep(cur[k..], rule));
  }

  /** Moving one element across a concatenation. */
  lemma Regroup(p: seq<Entity>, x: Entity, a: seq<Entity>, b: seq<Entity>)
    requires b == [x] + a
    ensures (p + [x]) + a == p + b
  {
  }

  /** After a splice at k, the passed part ends with the successor that
      shifted into slot k, and the part still ahead starts two past k. */
  lemma SpliceShifts(cur: seq<Entity>, k: nat, rule: Rule)
    requires k + 1 < |cur| && Drops(Visit(cur[k], rule), rule)
    ensures Done(Splice(cur, k, rule), k + 1) == cur[..k] + [cur[k + 1]]
    ensures Pending(Splice(cur, k, rule), k + 1) == cur[k + 2..]
    ensures Done(cur, k) == cur[..k] && Pending(cur, k) == cur[k..]
  {
    var next := Splice(cur, k, rule);
    assert next == cur[..k] + cur[k + 1..];
    assert next[..k + 1] == cur[..k] + [cur[k + 1]];
    assert next[k + 1..] == cur[k + 2..];
  }

  /** The element right after a dropped one is skipped: it survives the pass
      exactly as it was, neither moved nor tested. */
  lemma SweepSkips(cur: seq<Entity>, k: nat, rule: Rule)
    requires k + 1 < |cur| && Drops(Visit(cur[k], rule), rule)
    ensures Sweep(cur[k..], rule) == [cur[k + 1]] + Sweep(cur[k + 2..], rule)
    ensures Removed(cur[k..], rule) == 1 + Removed(cur[k + 2..], rule)
  {
    var rest := cur[k..];
    assert rest[0] == cur[k] && rest[1] == cur[k + 1] && rest[2..] == cur[k + 2..];
  }

  /** A pass over start is at index k of the current list cur and has
      removed `removed` elements so far: what it has passed, followed by the
      outcome of the rest of the pass, is the outcome promised for start. */
  ghost predicate Sweeping(cur: seq<Entity>, k: nat, start: seq<Entity>, rule: Rule, removed: nat)
  {
    Done(cur, k) + Sweep(Pending(cur, k), rule) == Sweep(start, rule) &&
    Removed(start, rule) == removed + Removed(Pending(cur, k), rule)
  }

  lemma SweepBegins(start: seq<Entity>, rule: Rule)
    ensures Sweeping(start, 0, start, rule, 0)
  {
    assert Done(start, 0) == [] && Pending(start, 0) == start;
  }

  /** Visiting index k keeps the pass on course. */
  lemma SweepAdvances(cur: seq<Entity>, k: nat, start: seq<Entity>, rule: Rule, removed: nat)
    requires Sweeping(cur, k, start, rule, removed) && k < |cur|
    ensures Sweeping(Splice(cur, k, rule), k + 1, start, rule,
                     removed + if Drops(Visit(cur[k], rule), rule) then 1 else 0)
  {
    SweepStep(cur, k, rule);
  }

  /** Once the index has passed the end of the current list, the list is the
      outcome of the pass and the count is its number of removals. */
  lemma SweepEnds(cur: seq<Entity>, k: nat, start: seq<Entity>, rule: Rule, removed: nat)
    requires Sweeping(cur, k, start, rule, removed) && k >= |cur|
    ensures cur == Sweep(start, rule) && removed == Removed(start, rule)
  {
    assert Done(cur, k) == cur && Pending(cur, k) == [];
  }
}
