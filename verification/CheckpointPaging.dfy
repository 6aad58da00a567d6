/** Which sources keep the checkpoint loop going for ever. */
module CheckpointPaging {
  import opened Paging
  import opened MessagePaging
  import opened CheckpointDelta

  /** The loop gets this far without a reason to stop. */
  ghost predicate Reaches(source: Source, checkpoint: string, n: nat) {
    exists vs :: |vs| == n && Undecided(source, checkpoint, vs)
  }

  /** However many loads are allowed, they are all used up. */
  ghost predicate Endless(source: Source, checkpoint: string) {
    forall n: nat :: Reaches(source, checkpoint, n)
  }

  /** From these loads on, every page of the loop is empty and promises more under a cursor
      that moves. */
  ghost predicate StallsFrom(source: Source, checkpoint: string, vs: seq<Visit<Message>>) {
    forall ws :: Undecided(source, checkpoint, ws) && |ws| >= |vs| ==> StallsNext(source, ws)
  }

  predicate StallsNext(source: Source, ws: seq<Visit<Message>>) {
    var v := Visit(NextCursor(ws), source(|ws|, NextCursor(ws)));
    GoesOn(v) && Stalls(v.page)
  }

  lemma {:induction false} PathPrefix(source: Source, checkpoint: string, vs: seq<Visit<Message>>, n: nat)
    requires Undecided(source, checkpoint, vs) && n <= |vs|
    ensures Undecided(source, checkpoint, vs[..n])
  {
    if n < |vs| {
      PathPrefix(source, checkpoint, vs[..|vs| - 1], n);
      assert vs[..|vs| - 1][..n] == vs[..n];
    } else {
      assert vs[..n] == vs;
    }
  }

  /** The loop's path is determined by the source. */
  lemma {:induction false} OnePath(source: Source, checkpoint: string, a: seq<Visit<Message>>, b: seq<Visit<Message>>)
    requires Undecided(source, checkpoint, a) && Undecided(source, checkpoint, b) && |a| == |b|
    ensures a == b
  {
    if a != [] {
      OnePath(source, checkpoint, a[..|a| - 1], b[..|b| - 1]);
      assert a == a[..|a| - 1] + [a[|a| - 1]] && b == b[..|b| - 1] + [b[|b| - 1]];
    }
  }

  lemma {:induction false} DeliveredGrows(vs: seq<Visit<Message>>, n: nat)
    requires n <= |vs|
    ensures |Delivered(vs[..n])| <= |Delivered(vs)|
  {
    if n < |vs| {
      DeliveredGrows(vs[..|vs| - 1], n);
      assert vs[..|vs| - 1][..n] == vs[..n];
    } else {
      assert vs[..n] == vs;
    }
  }

  lemma Stall(source: Source, checkpoint: string, ws: seq<Visit<Message>>)
    requires Undecided(source, checkpoint, ws) && StallsNext(source, ws)
    ensures Undecided(source, checkpoint, ws + [Visit(NextCursor(ws), source(|ws|, NextCursor(ws)))])
  {
    var page := source(|ws|, NextCursor(ws));
    UndecidedNext(source, checkpoint, ws, page);
    var all := ws + [Visit(NextCursor(ws), page)];
    assert Delivered(all) == Delivered(ws);
    if ws == [] { DeltaMissing([], checkpoint); }
  }

  lemma {:induction false} StallsReach(source: Source, checkpoint: string, vs: seq<Visit<Message>>, n: nat) returns (ws: seq<Visit<Message>>)
    requires Undecided(source, checkpoint, vs) && StallsFrom(source, checkpoint, vs) && n >= |vs|
    ensures |ws| == n && Undecided(source, checkpoint, ws)
  {
    if n == |vs| {
      ws := vs;
    } else {
      ws := StallsReach(source, checkpoint, vs, n - 1);
      Stall(source, checkpoint, ws);
      ws := ws + [Visit(NextCursor(ws), source(|ws|, NextCursor(ws)))];
    }
  }

  lemma Bounded(source: Source, checkpoint: string, vs: seq<Visit<Message>>)
    requires Undecided(source, checkpoint, vs)
    ensures |Delivered(vs)| <= MAX_UNCOVERED
  {
    if vs != [] { CheckpointBounds(Delivered(vs), checkpoint); }
  }

  /** A path that does not stall for good delivers more. */
  lemma NextDelivers(source: Source, checkpoint: string, vs: seq<Visit<Message>>, ws: seq<Visit<Message>>) returns (xs: seq<Visit<Message>>)
    requires Endless(source, checkpoint) && Undecided(source, checkpoint, vs)
    requires Undecided(source, checkpoint, ws) && |ws| >= |vs| && !StallsNext(source, ws)
    ensures Undecided(source, checkpoint, xs) && |Delivered(xs)| > |Delivered(vs)|
  {
    assert Reaches(source, checkpoint, |ws| + 1);
    xs :| |xs| == |ws| + 1 && Undecided(source, checkpoint, xs);
    OnePath(source, checkpoint, xs[..|ws|], ws);
    PathPrefix(source, checkpoint, ws, |vs|);
    OnePath(source, checkpoint, ws[..|vs|], vs);
    DeliveredGrows(ws, |vs|);
    assert Delivered(xs) == Delivered(ws) + PageItems(xs[|ws|]);
  }

  lemma {:induction false} EventuallyStalls(source: Source, checkpoint: string, vs: seq<Visit<Message>>) returns (us: seq<Visit<Message>>)
    requires Endless(source, checkpoint) && Undecided(source, checkpoint, vs)
    ensures Undecided(source, checkpoint, us) && StallsFrom(source, checkpoint, us)
    decreases MAX_UNCOVERED - |Delivered(vs)|
  {
    if StallsFrom(source, checkpoint, vs) {
      us := vs;
    } else {
      var ws :| Undecided(source, checkpoint, ws) && |ws| >= |vs| && !StallsNext(source, ws);
      var xs := NextDelivers(source, checkpoint, vs, ws);
      Bounded(source, checkpoint, xs);
      us := EventuallyStalls(source, checkpoint, xs);
    }
  }

  /** The loop runs for ever exactly against sources that, from some load on, answer only with
      empty pages that promise more under a cursor that moves. */
  lemma EndlessIff(source: Source, checkpoint: string)
    ensures Endless(source, checkpoint) <==> exists vs :: Undecided(source, checkpoint, vs) && StallsFrom(source, checkpoint, vs)
  {
    if Endless(source, checkpoint) {
      var us := EventuallyStalls(source, checkpoint, []);
    }
    if exists vs :: Undecided(source, checkpoint, vs) && StallsFrom(source, checkpoint, vs) {
      var vs :| Undecided(source, checkpoint, vs) && StallsFrom(source, checkpoint, vs);
      forall n: nat ensures Reaches(source, checkpoint, n) {
        if n <= |vs| {
          PathPrefix(source, checkpoint, vs, n);
          assert |vs[..n]| == n;
        } else {
          var ws := StallsReach(source, checkpoint, vs, n);
        }
      }
    }
  }

  /** The loop uses up its deadline exactly when its path gets that far. */
  method UsesUp(deadline: nat, source: Source, checkpoint: string) returns (r: Result, ghost visits: seq<Visit<Message>>)
    ensures r == Err(Unavailable) && |visits| == deadline <==> Reaches(source, checkpoint, deadline)
    ensures Endless(source, checkpoint) ==> r == Err(Unavailable) && |visits| == deadline
  {
    r, visits := PageToCheckpoint(deadline, source, checkpoint);
    if Reaches(source, checkpoint, deadline) { SamePath(r, deadline, source, checkpoint, visits); }
  }

  lemma SamePath(r: Result, deadline: nat, source: Source, checkpoint: string, visits: seq<Visit<Message>>)
    requires Reaches(source, checkpoint, deadline) && Followed(source, visits) && |visits| <= deadline
    requires Explains(r, deadline, source, checkpoint, visits) && (r == Err(Unavailable) <==> Undecided(source, checkpoint, visits))
    requires visits != [] ==> Undecided(source, checkpoint, visits[..|visits| - 1])
    ensures r == Err(Unavailable) && |visits| == deadline
  {
    var vs :| |vs| == deadline && Undecided(source, checkpoint, vs);
    LoopOnPath(source, checkpoint, visits, vs);
    PathPrefix(source, checkpoint, vs, |visits|);
    if |visits| < deadline { PageOnPath(source, checkpoint, vs, |visits|); }
  }

  lemma LoopOnPath(source: Source, checkpoint: string, visits: seq<Visit<Message>>, vs: seq<Visit<Message>>)
    requires Undecided(source, checkpoint, vs) && Followed(source, visits) && |visits| <= |vs|
    requires visits != [] ==> Undecided(source, checkpoint, visits[..|visits| - 1])
    ensures visits == vs[..|visits|]
  {
    if visits != [] {
      var n := |visits| - 1;
      PathPrefix(source, checkpoint, vs, n);
      OnePath(source, checkpoint, visits[..n], vs[..n]);
      PageOnPath(source, checkpoint, vs, n);
      LastFollowed(source, visits);
      SameEnds(visits, vs, n);
    }
  }

  lemma LastFollowed(source: Source, visits: seq<Visit<Message>>)
    requires Followed(source, visits) && visits != []
    ensures var n := |visits| - 1; visits[n] == Visit(NextCursor(visits[..n]), source(n, NextCursor(visits[..n])))
  {
  }

  lemma SameEnds(a: seq<Visit<Message>>, b: seq<Visit<Message>>, n: nat)
    requires n + 1 == |a| <= |b| && a[..n] == b[..n] && a[n] == b[n]
    ensures a == b[..n + 1]
  {
    assert a == a[..n] + [a[n]] && b[..n + 1] == b[..n] + [b[n]];
  }

  lemma PageOnPath(source: Source, checkpoint: string, vs: seq<Visit<Message>>, n: nat)
    requires Undecided(source, checkpoint, vs) && n < |vs|
    ensures vs[n] == Visit(NextCursor(vs[..n]), source(n, NextCursor(vs[..n]))) && GoesOn(vs[n])
  {
    PathPrefix(source, checkpoint, vs, n + 1);
    assert vs[..n + 1][..n] == vs[..n];
  }
}
