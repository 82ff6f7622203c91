/** The two passes of a tube tick: the scoring pass that flags tubes whose
    trailing edge has reached the screen centre, and the pass that moves every
    tube left and drops those that have left the screen. */
module TubeTrack {
  import opened Entities

  // ---------------------------------------------------------------------------
  // Scoring pass

  /** The scoring test: not counted yet, and the trailing edge is at or left of the centre. */
  predicate Crossing(w: int, t: Tube)
  {
    !t.passed && (t.x + TubeWidth) as real <= Centre(w)
  }

  /** One tube as the scoring pass leaves it. */
  function Mark(w: int, t: Tube): Tube
  {
    if Crossing(w, t) then t.(passed := true) else t
  }

  /** The list as the scoring pass leaves it: same positions and heights, and
      a tube is flagged iff it was flagged or its trailing edge is at or left
      of the centre. */
  function MarkPassed(w: int, ts: seq<Tube>): (r: seq<Tube>)
    ensures |r| == |ts|
    ensures forall i :: 0 <= i < |ts| ==>
              r[i].x == ts[i].x && r[i].topHeight == ts[i].topHeight &&
              r[i].passed == (ts[i].passed || (ts[i].x + TubeWidth) as real <= Centre(w))
  {
    seq(|ts|, i requires 0 <= i < |ts| => Mark(w, ts[i]))
  }

  /** Number of tubes whose flag is set. */
  function PassedCount(ts: seq<Tube>): (n: nat)
    ensures n <= |ts|
  {
    if ts == [] then 0
    else PassedCount(ts[..|ts| - 1]) + (if ts[|ts| - 1].passed then 1 else 0)
  }

  /** The points the scoring pass awards: one per crossing tube. Only tubes not
      yet flagged can score. */
  function NewlyPassed(w: int, ts: seq<Tube>): (n: nat)
    ensures n + PassedCount(ts) <= |ts|
  {
    if ts == [] then 0
    else NewlyPassed(w, ts[..|ts| - 1]) + (if Crossing(w, ts[|ts| - 1]) then 1 else 0)
  }

  lemma MarkPassedPrefix(w: int, ts: seq<Tube>, k: nat)
    requires k <= |ts|
    ensures MarkPassed(w, ts)[..k] == MarkPassed(w, ts[..k])
  {
  }

  /** The points awarded equal the number of flags the pass raises. */
  lemma {:induction false} ScoreMatchesNewFlags(w: int, ts: seq<Tube>)
    ensures PassedCount(MarkPassed(w, ts)) == PassedCount(ts) + NewlyPassed(w, ts)
  {
    if ts != [] {
      var n := |ts| - 1;
      MarkPassedPrefix(w, ts, n);
      ScoreMatchesNewFlags(w, ts[..n]);
    }
  }

  /** The points awarded are the number of positions holding a crossing tube. */
  lemma {:induction false} NewlyPassedCountsCrossing(w: int, ts: seq<Tube>)
    ensures NewlyPassed(w, ts) == |set i | 0 <= i < |ts| && Crossing(w, ts[i])|
  {
    if ts != [] {
      var n := |ts| - 1;
      NewlyPassedCountsCrossing(w, ts[..n]);
      var before := set i | 0 <= i < n && Crossing(w, ts[..n][i]);
      var after := set i | 0 <= i < |ts| && Crossing(w, ts[i]);
      assert before == set i | 0 <= i < n && Crossing(w, ts[i]);
      if Crossing(w, ts[n]) {
        assert after == before + {n};
      } else {
        assert after == before;
      }
    }
  }

  /** The pass awards nothing exactly when no tube is crossing. */
  lemma {:induction false} NothingNewIffNoCrossing(w: int, ts: seq<Tube>)
    ensures NewlyPassed(w, ts) == 0 <==> forall i :: 0 <= i < |ts| ==> !Crossing(w, ts[i])
  {
    if ts != [] {
      var n := |ts| - 1;
      NothingNewIffNoCrossing(w, ts[..n]);
      assert forall i :: 0 <= i < n ==> ts[..n][i] == ts[i];
    }
  }

  /** A tube that has scored never scores again: a second scoring pass over
      the flagged list awards nothing. */
  lemma SecondPassAwardsNothing(w: int, ts: seq<Tube>)
    ensures NewlyPassed(w, MarkPassed(w, ts)) == 0
  {
    NothingNewIffNoCrossing(w, MarkPassed(w, ts));
  }

  // ---------------------------------------------------------------------------
  // Move-and-filter pass

  function Shifted(t: Tube): Tube
  {
    t.(x := t.x - TubeSpeed)
  }

  /** A tube is kept while its trailing edge is right of the screen's left edge. */
  predicate OnScreen(t: Tube)
  {
    t.x + TubeWidth > 0
  }

  /** Every tube moved left by one step, keeping those still on screen, in order. */
  function MoveTubes(ts: seq<Tube>): (r: seq<Tube>)
    ensures |r| <= |ts|
    ensures forall i :: 0 <= i < |r| ==> r[i].x + TubeWidth > 0
  {
    if ts == [] then []
    else
      var rest := MoveTubes(ts[..|ts| - 1]);
      var t := Shifted(ts[|ts| - 1]);
      if OnScreen(t) then rest + [t] else rest
  }

  /** One tube alone: it moves five to the left, keeps its height and flag,
      and stays iff its new trailing edge is right of zero. */
  lemma MoveOneTube(t: Tube)
    ensures MoveTubes([t]) ==
              if t.x - TubeSpeed + TubeWidth > 0 then [Tube(t.x - TubeSpeed, t.topHeight, t.passed)] else []
  {
  }

  /** Moving distributes over concatenation, so the survivors keep their order.
      With MoveOneTube this determines the pass completely. */
  lemma {:induction false} MoveTubesAppend(a: seq<Tube>, b: seq<Tube>)
    ensures MoveTubes(a + b) == MoveTubes(a) + MoveTubes(b)
  {
    if b == [] {
      assert a + b == a;
    } else {
      var n := |b| - 1;
      assert (a + b)[..|a + b| - 1] == a + b[..n];
      MoveTubesAppend(a, b[..n]);
    }
  }

  /** Every tube whose moved position is on screen survives, moved. */
  lemma {:induction false} MoveTubesKeeps(ts: seq<Tube>)
    ensures forall t :: t in ts && t.x - TubeSpeed + TubeWidth > 0 ==>
              Tube(t.x - TubeSpeed, t.topHeight, t.passed) in MoveTubes(ts)
  {
    if ts != [] {
      var n := |ts| - 1;
      var init := ts[..n];
      MoveTubesKeeps(init);
      assert ts == init + [ts[n]];
      forall t | t in ts && t.x - TubeSpeed + TubeWidth > 0
        ensures Tube(t.x - TubeSpeed, t.topHeight, t.passed) in MoveTubes(ts)
      {
        if t !in init {
          assert t == ts[n];
        }
      }
    }
  }

  /** Every survivor is some old tube moved by five, with its height and flag. */
  lemma {:induction false} MoveTubesOrigin(ts: seq<Tube>)
    ensures forall u :: u in MoveTubes(ts) ==> Tube(u.x + TubeSpeed, u.topHeight, u.passed) in ts
  {
    if ts != [] {
      var n := |ts| - 1;
      var init := ts[..n];
      MoveTubesOrigin(init);
      var rest := MoveTubes(init);
      forall u | u in MoveTubes(ts)
        ensures Tube(u.x + TubeSpeed, u.topHeight, u.passed) in ts
      {
        if u !in rest {
          assert u == Shifted(ts[n]);
        } else {
          assert Tube(u.x + TubeSpeed, u.topHeight, u.passed) in init;
        }
      }
    }
  }

  /** Moving never raises a flag; it only loses the flags of the tubes it drops,
      and loses one per dropped tube when every dropped tube had scored. */
  lemma {:induction false} MoveKeepsFlags(ts: seq<Tube>)
    ensures PassedCount(MoveTubes(ts)) <= PassedCount(ts)
    ensures PassedCount(ts) - PassedCount(MoveTubes(ts)) <= |ts| - |MoveTubes(ts)|
    ensures (forall i :: 0 <= i < |ts| && !OnScreen(Shifted(ts[i])) ==> ts[i].passed) ==>
              PassedCount(ts) - PassedCount(MoveTubes(ts)) == |ts| - |MoveTubes(ts)|
  {
    if ts != [] {
      var n := |ts| - 1;
      MoveKeepsFlags(ts[..n]);
      var rest := MoveTubes(ts[..n]);
      var t := Shifted(ts[n]);
      if OnScreen(t) {
        assert (rest + [t])[..|rest|] == rest;
      }
    }
  }

  /** When the centre is at least one step from the left edge (w >= 10), every
      tube a tick removes has scored in that tick's scoring pass or earlier; so
      each tube that leaves the screen has added exactly one point. */
  lemma TickDropsOnlyScoredTubes(w: int, ts: seq<Tube>)
    requires Centre(w) >= TubeSpeed as real
    ensures var m := MarkPassed(w, ts);
            PassedCount(m) - PassedCount(MoveTubes(m)) == |m| - |MoveTubes(m)|
  {
    MoveKeepsFlags(MarkPassed(w, ts));
  }

  /** n successive move passes with no spawn in between. */
  function MoveTubesTimes(ts: seq<Tube>, n: nat): seq<Tube>
    decreases n
  {
    if n == 0 then ts else MoveTubesTimes(MoveTubes(ts), n - 1)
  }

  /** A pass over tubes whose trailing edges are all within one step of the
      left edge leaves nothing. */
  lemma {:induction false} MoveTubesEmpties(ts: seq<Tube>)
    requires forall t :: t in ts ==> t.x + TubeWidth <= TubeSpeed
    ensures MoveTubes(ts) == []
  {
    if ts != [] {
      var n := |ts| - 1;
      assert ts[n] in ts;
      assert forall t :: t in ts[..n] ==> t in ts;
      MoveTubesEmpties(ts[..n]);
    }
  }

  /** Without spawns the list empties: once n steps of five carry every
      trailing edge to zero or beyond, n passes leave no tube. */
  lemma {:induction false} MovedTubesLeave(ts: seq<Tube>, n: nat)
    requires n >= 1
    requires forall t :: t in ts ==> t.x + TubeWidth <= TubeSpeed * n
    ensures MoveTubesTimes(ts, n) == []
    decreases n
  {
    if n == 1 {
      MoveTubesEmpties(ts);
    } else {
      MoveTubesOrigin(ts);
      MovedTubesLeave(MoveTubes(ts), n - 1);
    }
  }
}
