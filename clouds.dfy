/** The cloud tick: every cloud moves left by one step and those that have
    drifted past the left margin are dropped. */
module CloudTrack {
  import opened Entities

  function Drifted(c: Cloud): Cloud
  {
    c.(x := c.x - CloudSpeed)
  }

  /** A cloud is kept while its left edge is right of -CloudMargin. */
  predicate Visible(c: Cloud)
  {
    c.x > -CloudMargin
  }

  /** Every cloud moved left by one step, keeping the visible ones, in order. */
  function MoveClouds(cs: seq<Cloud>): (r: seq<Cloud>)
    ensures |r| <= |cs|
    ensures forall i :: 0 <= i < |r| ==> r[i].x > -CloudMargin
  {
    if cs == [] then []
    else
      var rest := MoveClouds(cs[..|cs| - 1]);
      var c := Drifted(cs[|cs| - 1]);
      if Visible(c) then rest + [c] else rest
  }

  /** One cloud alone: it moves four to the left at the same height, and
      stays iff its new x is greater than -100. */
  lemma MoveOneCloud(c: Cloud)
    ensures MoveClouds([c]) ==
              if c.x - CloudSpeed > -CloudMargin then [Cloud(c.x - CloudSpeed, c.y)] else []
  {
  }

  /** Moving distributes over concatenation, so the survivors keep their order.
      With MoveOneCloud this determines the pass completely. */
  lemma {:induction false} MoveCloudsAppend(a: seq<Cloud>, b: seq<Cloud>)
    ensures MoveClouds(a + b) == MoveClouds(a) + MoveClouds(b)
  {
    if b == [] {
      assert a + b == a;
    } else {
      var n := |b| - 1;
      assert (a + b)[..|a + b| - 1] == a + b[..n];
      MoveCloudsAppend(a, b[..n]);
    }
  }

  /** Every cloud whose moved position is visible survives, moved. */
  lemma {:induction false} MoveCloudsKeeps(cs: seq<Cloud>)
    ensures forall c :: c in cs && c.x - CloudSpeed > -CloudMargin ==>
              Cloud(c.x - CloudSpeed, c.y) in MoveClouds(cs)
  {
    if cs != [] {
      var n := |cs| - 1;
      var init := cs[..n];
      MoveCloudsKeeps(init);
      assert cs == init + [cs[n]];
      forall c | c in cs && c.x - CloudSpeed > -CloudMargin
        ensures Cloud(c.x - CloudSpeed, c.y) in MoveClouds(cs)
      {
        if c !in init {
          assert c == cs[n];
        }
      }
    }
  }

  /** Every survivor is some old cloud moved by four at the same height. */
  lemma {:induction false} MoveCloudsOrigin(cs: seq<Cloud>)
    ensures forall u :: u in MoveClouds(cs) ==> Cloud(u.x + CloudSpeed, u.y) in cs
  {
    if cs != [] {
      var n := |cs| - 1;
      var init := cs[..n];
      MoveCloudsOrigin(init);
      var rest := MoveClouds(init);
      forall u | u in MoveClouds(cs)
        ensures Cloud(u.x + CloudSpeed, u.y) in cs
      {
        if u !in rest {
          assert u == Drifted(cs[n]);
        } else {
          assert Cloud(u.x + CloudSpeed, u.y) in init;
        }
      }
    }
  }

  /** n successive cloud ticks with no spawn in between. */
  function MoveCloudsTimes(cs: seq<Cloud>, n: nat): seq<Cloud>
    decreases n
  {
    if n == 0 then cs else MoveCloudsTimes(MoveClouds(cs), n - 1)
  }

  /** A pass over clouds all within one step of the margin leaves nothing. */
  lemma {:induction false} MoveCloudsEmpties(cs: seq<Cloud>)
    requires forall c :: c in cs ==> c.x + CloudMargin <= CloudSpeed
    ensures MoveClouds(cs) == []
  {
    if cs != [] {
      var n := |cs| - 1;
      assert cs[n] in cs;
      assert forall c :: c in cs[..n] ==> c in cs;
      MoveCloudsEmpties(cs[..n]);
    }
  }

  /** Without spawns the list empties: once n steps of four carry every cloud
      to the margin or beyond, n ticks leave no cloud. */
  lemma {:induction false} MovedCloudsLeave(cs: seq<Cloud>, n: nat)
    requires n >= 1
    requires forall c :: c in cs ==> c.x + CloudMargin <= CloudSpeed * n
    ensures MoveCloudsTimes(cs, n) == []
    decreases n
  {
    if n == 1 {
      MoveCloudsEmpties(cs);
    } else {
      MoveCloudsOrigin(cs);
      MovedCloudsLeave(MoveClouds(cs), n - 1);
    }
  }
}
