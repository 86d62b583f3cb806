/** The bullet-against-enemy pass of checkCollisions: a forEach over the
    bullets whose body is a forEach over the enemies.

    For the captured bullet at index k, the inner pass is a Sweep of the
    enemies with that bullet as the target. Every hit also calls
    splice(k, 1) on the bullets, although the captured bullet is already
    gone after the first one: the second hit removes whichever bullet has
    shifted into slot k, and once none has, the splice removes nothing. */
module Collisions {
  import opened Geometry
  import opened Sprites

  datatype Outcome = Outcome(bullets: seq<Entity>, enemies: seq<Entity>, hits: nat)

  /** The bullets after `count` calls of splice(at, 1): the run starting at
      index at, cut short where the list ends. */
  function SpliceRun(bs: seq<Entity>, at: nat, count: nat): (r: seq<Entity>)
    requires at <= |bs|
    ensures at <= |r| <= |bs| && bs[..at] <= r
    ensures at + count < |bs| ==> |r| == |bs| - count
    ensures |bs| <= at + count ==> r == bs[..at]
    ensures forall i :: at <= i < |r| ==> r[i] == bs[i + count]
  {
    bs[..at] + bs[if at + count < |bs| then at + count else |bs|..]
  }

  /** The bullets after `count` calls of splice(at, 1), one at a time; a
      call with nothing left at index at removes nothing. */
  function Spliced(bs: seq<Entity>, at: nat, count: nat): (r: seq<Entity>)
    requires at <= |bs|
    ensures at <= |r| <= |bs|
    decreases count
  {
    if count == 0 || at == |bs| then bs else Spliced(bs[..at] + bs[at + 1..], at, count - 1)
  }

  /** Each splice removes one bullet until none is left at index at. */
  lemma {:induction false} SplicedLength(bs: seq<Entity>, at: nat, count: nat)
    requires at <= |bs|
    ensures |Spliced(bs, at, count)| == |bs| - (if at + count < |bs| then count else |bs| - at)
    decreases count
  {
    if count > 0 && at < |bs| {
      SplicedLength(bs[..at] + bs[at + 1..], at, count - 1);
    }
  }

  /** c splices followed by d more are c + d splices. */
  lemma {:induction false} SplicedAgain(bs: seq<Entity>, at: nat, c: nat, d: nat)
    requires at <= |bs|
    ensures Spliced(Spliced(bs, at, c), at, d) == Spliced(bs, at, c + d)
    decreases c
  {
    if c > 0 && at < |bs| {
      SplicedAgain(bs[..at] + bs[at + 1..], at, c - 1, d);
    }
  }

  /** Repeated splices at one index cut out the run starting there. */
  lemma {:induction false} SplicedIsRun(bs: seq<Entity>, at: nat, count: nat)
    requires at <= |bs|
    ensures Spliced(bs, at, count) == SpliceRun(bs, at, count)
    decreases count
  {
    if count > 0 && at < |bs| {
      var next := bs[..at] + bs[at + 1..];
      SplicedIsRun(next, at, count - 1);
      assert next[..at] == bs[..at];
      assert next[(if at + count - 1 < |next| then at + count - 1 else |next|)..]
          == bs[(if at + count < |bs| then at + count else |bs|)..];
    }
  }

  /** The outcome of the bullet pass from bullet index k on: the surviving
      bullets and enemies and the number of hits, each worth 10 points. */
  function Collide(bs: seq<Entity>, es: seq<Entity>, k: nat): (o: Outcome)
    ensures |o.enemies| + o.hits == |es|
    ensures |o.bullets| <= |bs| <= |o.bullets| + o.hits
    decreases |bs| - k
  {
    if k >= |bs| then Outcome(bs, es, 0)
    else
      var shot := Contact(Bounds(bs[k]));
      var h := Removed(es, shot);
      var rest := Collide(SpliceRun(bs, k, h), Sweep(es, shot), k + 1);
      Outcome(rest.bullets, rest.enemies, rest.hits + h)
  }

  /** Some bullet of shots overlaps e. */
  ghost predicate HitByAny(e: Entity, shots: seq<Entity>)
  {
    exists b :: b in shots && Overlaps(Bounds(b), Bounds(e))
  }

  /** r is s with some elements deleted, each of them overlapped by a bullet
      of shots; the others keep their order. */
  ghost predicate Culled(r: seq<Entity>, s: seq<Entity>, shots: seq<Entity>)
    decreases |s|
  {
    if s == [] then r == []
    else
      (r != [] && r[0] == s[0] && Culled(r[1..], s[1..], shots))
      || (HitByAny(s[0], shots) && Culled(r, s[1..], shots))
  }

  /** r is s with some elements deleted; the others keep their order. */
  ghost predicate IsSubsequence(r: seq<Entity>, s: seq<Entity>)
    decreases |s|
  {
    if s == [] then r == []
    else
      (r != [] && r[0] == s[0] && IsSubsequence(r[1..], s[1..]))
      || IsSubsequence(r, s[1..])
  }

  lemma {:induction false} CulledTransitive(r: seq<Entity>, m: seq<Entity>, s: seq<Entity>, shots: seq<Entity>)
    requires Culled(r, m, shots) && Culled(m, s, shots)
    ensures Culled(r, s, shots)
    decreases |s|
  {
    if s != [] {
      if m != [] && m[0] == s[0] && Culled(m[1..], s[1..], shots) {
        if r != [] && r[0] == m[0] && Culled(r[1..], m[1..], shots) {
          CulledTransitive(r[1..], m[1..], s[1..], shots);
        } else {
          CulledTransitive(r, m[1..], s[1..], shots);
        }
      } else {
        CulledTransitive(r, m, s[1..], shots);
      }
    }
  }

  lemma {:induction false} CulledMembers(r: seq<Entity>, s: seq<Entity>, shots: seq<Entity>)
    requires Culled(r, s, shots)
    ensures forall e :: e in r ==> e in s
    decreases |s|
  {
    if s != [] {
      if r != [] && r[0] == s[0] && Culled(r[1..], s[1..], shots) {
        CulledMembers(r[1..], s[1..], shots);
        assert forall e :: e in r ==> e == r[0] || e in r[1..];
      } else {
        CulledMembers(r, s[1..], shots);
      }
    }
  }

  /** An enemy pass that targets a bullet of shots removes only enemies that
      bullet overlaps. */
  lemma {:induction false} ContactSweepCulled(r: seq<Entity>, s: seq<Entity>, b: Entity, shots: seq<Entity>)
    requires Swept(r, s, Contact(Bounds(b))) && b in shots
    ensures Culled(r, s, shots)
    decreases |s|
  {
    var rule := Contact(Bounds(b));
    if s != [] {
      assert Visit(s[0], rule) == s[0];
      if r != [] && r[0] == s[0] && Swept(r[1..], s[1..], rule) {
        ContactSweepCulled(r[1..], s[1..], b, shots);
      } else {
        assert Overlaps(Bounds(b), Bounds(s[0]));
        ContactSweepCulled(r, s[1..], b, shots);
      }
    }
  }

  lemma {:induction false} SubsequenceReflexive(s: seq<Entity>)
    ensures IsSubsequence(s, s)
    decreases |s|
  {
    if s != [] {
      SubsequenceReflexive(s[1..]);
    }
  }

  lemma {:induction false} SubsequenceTransitive(r: seq<Entity>, m: seq<Entity>, s: seq<Entity>)
    requires IsSubsequence(r, m) && IsSubsequence(m, s)
    ensures IsSubsequence(r, s)
    decreases |s|
  {
    if s != [] {
      if m != [] && m[0] == s[0] && IsSubsequence(m[1..], s[1..]) {
        if r != [] && r[0] == m[0] && IsSubsequence(r[1..], m[1..]) {
          SubsequenceTransitive(r[1..], m[1..], s[1..]);
        } else {
          SubsequenceTransitive(r, m[1..], s[1..]);
        }
      } else {
        SubsequenceTransitive(r, m, s[1..]);
      }
    }
  }

  lemma {:induction false} SubsequenceMembers(r: seq<Entity>, s: seq<Entity>)
    requires IsSubsequence(r, s)
    ensures forall e :: e in r ==> e in s
    decreases |s|
  {
    if s != [] {
      if r != [] && r[0] == s[0] && IsSubsequence(r[1..], s[1..]) {
        SubsequenceMembers(r[1..], s[1..]);
        assert forall e :: e in r ==> e == r[0] || e in r[1..];
      } else {
        SubsequenceMembers(r, s[1..]);
      }
    }
  }

  /** Cutting a run out of a list leaves a subsequence of it. */
  lemma {:induction false} SpliceRunIsSubsequence(s: seq<Entity>, at: nat, to: nat)
    requires at <= to <= |s|
    ensures IsSubsequence(s[..at] + s[to..], s)
    decreases |s|
  {
    if at > 0 {
      SpliceRunIsSubsequence(s[1..], at - 1, to - 1);
      var r := s[..at] + s[to..];
      assert r[0] == s[0] && r[1..] == s[1..][..at - 1] + s[1..][to - 1..];
    } else if to > 0 {
      SpliceRunIsSubsequence(s[1..], 0, to - 1);
      assert s[..0] + s[to..] == s[1..][..0] + s[1..][to - 1..];
    } else {
      assert s[..0] + s[0..] == s;
      SubsequenceReflexive(s);
    }
  }

  /** The bullet pass never adds anything: the surviving bullets are a
      subsequence of the bullets before the pass, and the surviving enemies
      are the enemies before the pass minus some, each overlapped by a bullet
      that was on the canvas when the pass began. */
  lemma {:induction false} CollideOnlyRemoves(bs: seq<Entity>, es: seq<Entity>, k: nat, shots: seq<Entity>)
    requires forall b :: b in bs ==> b in shots
    ensures IsSubsequence(Collide(bs, es, k).bullets, bs)
    ensures Culled(Collide(bs, es, k).enemies, es, shots)
    decreases |bs| - k
  {
    if k >= |bs| {
      SubsequenceReflexive(bs);
      CulledReflexive(es, shots);
    } else {
      var shot := Contact(Bounds(bs[k]));
      var h := Removed(es, shot);
      var bs' := SpliceRun(bs, k, h);
      var es' := Sweep(es, shot);
      SpliceRunIsSubsequence(bs, k, if k + h < |bs| then k + h else |bs|);
      SubsequenceMembers(bs', bs);
      CollideOnlyRemoves(bs', es', k + 1, shots);
      SubsequenceTransitive(Collide(bs', es', k + 1).bullets, bs', bs);
      SweepIsSwept(es, shot);
      assert bs[k] in shots;
      ContactSweepCulled(es', es, bs[k], shots);
      CulledTransitive(Collide(bs', es', k + 1).enemies, es', es, shots);
    }
  }

  lemma {:induction false} CulledReflexive(s: seq<Entity>, shots: seq<Entity>)
    ensures Culled(s, s, shots)
    decreases |s|
  {
    if s != [] {
      CulledReflexive(s[1..], shots);
    }
  }

  /** When no bullet overlaps any enemy, the pass changes nothing and scores
      nothing. */
  lemma {:induction false} CollideWithoutOverlap(bs: seq<Entity>, es: seq<Entity>, k: nat)
    requires forall b, e :: b in bs && e in es ==> !Overlaps(Bounds(b), Bounds(e))
    ensures Collide(bs, es, k) == Outcome(bs, es, 0)
    decreases |bs| - k
  {
    if k < |bs| {
      var shot := Contact(Bounds(bs[k]));
      assert bs[k] in bs;
      assert forall i :: 0 <= i < |es| ==> es[i] in es;
      SweepWithoutDrops(es, shot);
      assert Sweep(es, shot) == es;
      assert SpliceRun(bs, k, 0) == bs;
      CollideWithoutOverlap(bs, es, k + 1);
    }
  }

  /** A single bullet can destroy two enemies in one pass: with three enemies
      in its box, it hits the first, the second shifts into the slot just
      visited and is skipped, and the captured bullet hits the third. */
  lemma OneBulletTwoHits()
    ensures var b := Entity(100.0, 100.0, 5.0, 10.0, "red", -5.0);
            var e := Entity(90.0, 95.0, 30.0, 30.0, "#FF0000", 3.0);
            Collide([b], [e, e, e], 0) == Outcome([], [e], 2)
  {
    var b := Entity(100.0, 100.0, 5.0, 10.0, "red", -5.0);
    var e := Entity(90.0, 95.0, 30.0, 30.0, "#FF0000", 3.0);
    var shot := Contact(Bounds(b));
    assert Overlaps(Bounds(b), Bounds(e));
    assert [e, e, e][2..] == [e];
    assert Sweep([e, e, e], shot) == [e];
    assert Removed([e, e, e], shot) == 2;
    assert SpliceRun([b], 0, 2) == [];
  }

  /** The stale bullet index: after the first bullet hits an enemy, its
      second hit in the same pass splices out the next bullet, which overlaps
      nothing. */
  lemma StaleIndexRemovesBystander()
    ensures var shooter := Entity(100.0, 100.0, 5.0, 10.0, "red", -5.0);
            var bystander := Entity(500.0, 300.0, 5.0, 10.0, "red", -5.0);
            var hit := Entity(90.0, 95.0, 30.0, 30.0, "#FF0000", 3.0);
            var away := Entity(300.0, 95.0, 30.0, 30.0, "#00FF00", 3.0);
            Collide([shooter, bystander], [hit, away, hit], 0) == Outcome([], [away], 2)
  {
    var shooter := Entity(100.0, 100.0, 5.0, 10.0, "red", -5.0);
    var bystander := Entity(500.0, 300.0, 5.0, 10.0, "red", -5.0);
    var hit := Entity(90.0, 95.0, 30.0, 30.0, "#FF0000", 3.0);
    var away := Entity(300.0, 95.0, 30.0, 30.0, "#00FF00", 3.0);
    var shot := Contact(Bounds(shooter));
    assert Overlaps(Bounds(shooter), Bounds(hit));
    assert [hit, away, hit][2..] == [hit];
    assert Sweep([hit, away, hit], shot) == [away];
    assert Removed([hit, away, hit], shot) == 2;
    assert SpliceRun([shooter, bystander], 0, 2) == [];
  }
}
