/** When a reconcile fails, told from the list and the stored rows before anything is written. */
module ReconcileForecast {
  import opened Wrappers
  import opened GraphModel
  import opened ReconcileModel
  import opened ReconcileReplay

  // ----- who will stand where -----

  /** Symbol `a` will still be what its row shows when the turn of symbol `k` comes: no unclaimed
      symbol in between competes with it. */
  predicate StandsBefore(p: Plan, a: nat, k: nat)
    requires k <= |p.syms| == |p.matched|
  {
    a < k && forall b :: a < b < k && !Matched(p, b) ==> !Alike(p.syms[a], p.syms[b])
  }

  predicate SameFqn(p: Plan, a: nat, k: nat)
    requires a < |p.syms| && k < |p.syms|
  {
    p.syms[a].fqn == p.syms[k].fqn
  }

  predicate SamePlace(p: Plan, a: nat, k: nat)
    requires a < |p.syms| && k < |p.syms|
  {
    SymKey("", p.syms[a]) == SymKey("", p.syms[k])
  }

  predicate HasEarlierFqn(syms: seq<ReconcileSymbol>, k: nat)
    requires k < |syms|
  {
    exists a :: 0 <= a < k && syms[a].fqn == syms[k].fqn
  }

  predicate HasEarlierPlace(syms: seq<ReconcileSymbol>, k: nat)
    requires k < |syms|
  {
    exists a :: 0 <= a < k && SymKey("", syms[a]) == SymKey("", syms[k])
  }

  ghost predicate HasHolder(p: Plan, db: Db, k: nat)
    requires k < |p.syms|
  {
    exists h :: Holder(p, db, h, k)
  }

  // ----- the forecast -----

  /** The write of a claimed symbol meets a standing competitor, or a row of another file that has its fqn
      and that no earlier symbol takes over; the write of an unclaimed one meets its place and its fqn in two rows. */
  ghost predicate WillBlock(p: Plan, db: Db, k: nat) {
    && k < |p.syms| == |p.matched|
    && if Matched(p, k) then MeetsForeignFqn(p, db, k) || MeetsRival(p, k)
       else exists c: nat :: && StandsBefore(p, c, k) && SamePlace(p, c, k)
                             && (MeetsForeignFqn(p, db, k) || MeetsFqnBeside(p, c, k))
  }

  ghost predicate MeetsRival(p: Plan, k: nat)
    requires k < |p.syms| == |p.matched|
  {
    exists a: nat :: StandsBefore(p, a, k) && Alike(p.syms[a], p.syms[k])
  }

  ghost predicate MeetsForeignFqn(p: Plan, db: Db, k: nat)
    requires k < |p.syms|
  {
    HasHolder(p, db, k) && !HasEarlierFqn(p.syms, k)
  }

  predicate MeetsFqnBeside(p: Plan, c: nat, k: nat)
    requires k < |p.syms| == |p.matched|
  {
    exists a :: 0 <= a < k && a != c && StandsBefore(p, a, k) && SameFqn(p, a, k)
  }

  /** An unclaimed row would be put back where a symbol stands in the end. */
  ghost predicate WillCollide(p: Plan)
    requires |p.syms| == |p.matched|
  {
    exists j: nat, i: nat :: j < |p.olds| && StandsBefore(p, i, |p.syms|) && CollidesAt(p, j, i)
  }

  ghost predicate Foretold(p: Plan, db: Db)
    requires |p.syms| == |p.matched|
  {
    !ParentsFirst(p.syms) || (exists k: nat :: WillBlock(p, db, k)) || WillCollide(p)
  }

  // ----- why it comes true -----

  /** Pass 3 on fewer symbols hands out the same rows. */
  lemma {:induction false} SameIdsBefore(p: Plan, db: Db, k: nat, n: nat)
    requires k <= n <= |p.syms| == |p.matched| && Replay3(p, db, n).Some?
    ensures Replay3(p, db, k).Some? && |Replay3(p, db, n).value.ids| == n && |Replay3(p, db, k).value.ids| == k
    ensures Replay3(p, db, k).value.ids == Replay3(p, db, n).value.ids[..k]
    decreases n
  {
    if n > 0 {
      var w := Replay3(p, db, n - 1).value;
      OneTurnMore(p, db, n - 1);
      if k < n { SameIdsBefore(p, db, k, n - 1); }
    }
  }

  lemma OneTurnMore(p: Plan, db: Db, k: nat)
    requires k < |p.syms| == |p.matched| && Replay3(p, db, k + 1).Some?
    ensures Replay3(p, db, k).Some? && |Replay3(p, db, k).value.ids| == k
    ensures WriteNext(p, Replay3(p, db, k).value) == Replay3(p, db, k + 1)
    ensures |Replay3(p, db, k + 1).value.ids| == k + 1
    ensures Replay3(p, db, k + 1).value.ids[..k] == Replay3(p, db, k).value.ids
  {
    var w := Replay3(p, db, k).value;
    assert WriteStep(p)(k, w) == Replay3(p, db, k + 1);
    assert |w.ids| == k && WriteNext(p, w).Some?;
    var t :| MayWrite(p, w, t) && WriteNext(p, w) == Some(Wrote(p, w, t));
  }

  /** An unclaimed symbol takes over the row of the competitor that stands there. */
  lemma TakesRivalsRow(p: Plan, db: Db, a: nat, b: nat)
    requires OnTrack(p, db) && a < b < |p.syms| && Replay3(p, db, b + 1).Some?
    requires !Matched(p, b) && Alike(p.syms[a], p.syms[b])
    requires |Replay3(p, db, b + 1).value.ids| == b + 1 && StandingAt(Replay3(p, db, b + 1).value.ids, a, b)
    ensures Replay3(p, db, b + 1).value.ids[b] == Replay3(p, db, b + 1).value.ids[a]
  {
    OneTurnMore(p, db, b);
    var w, ids := Replay3(p, db, b).value, Replay3(p, db, b + 1).value.ids;
    Replay3Means(p, db, b);
    assert forall m :: 0 <= m < b ==> w.ids[m] == ids[m];
    assert Standing(w.ids, a);
    var t :| MayWrite(p, w, t) && WriteNext(p, w) == Some(Wrote(p, w, t));
    SlotIsRivals(p, db, w, t, a);
  }

  lemma SlotIsRivals(p: Plan, db: Db, w: Writing, t: Id, a: nat)
    requires OnTrack(p, db) && Pass3(p, db, w) && |w.ids| < |p.syms| && !Matched(p, |w.ids|) && MayWrite(p, w, t)
    requires a < |w.ids| && Standing(w.ids, a) && Alike(p.syms[a], p.syms[|w.ids|])
    ensures t == w.ids[a]
  {
    NextRowIsRowOf(p, db, w);
    RowOfIsOwn(p, db, w.ids, |w.ids|);
    RowOfIsOwn(p, db, w.ids, a);
    assert RowIs(w.db.nodes, w.ids[a], RowOf(p, w.ids, a));
  }

  /** The forecast of who stands is right as long as no turn is refused. */
  lemma StandsExactly(p: Plan, db: Db, n: nat, a: nat)
    requires OnTrack(p, db) && a < n <= |p.syms| && Replay3(p, db, n).Some?
    ensures |Replay3(p, db, n).value.ids| == n
    ensures StandingAt(Replay3(p, db, n).value.ids, a, n) <==> StandsBefore(p, a, n)
  {
    SameIdsBefore(p, db, n, n);
    Replay3Means(p, db, n);
    var w := Replay3(p, db, n).value;
    if StandingAt(w.ids, a, n) {
      forall b | a < b < n && !Matched(p, b)
        ensures !Alike(p.syms[a], p.syms[b])
      {
        SameIdsBefore(p, db, b + 1, n);
        if Alike(p.syms[a], p.syms[b]) { TakesRivalsRow(p, db, a, b); }
      }
    } else {
      NextWriterCompetes(p, db, w.ids, w.db.nextNode, a, n);
    }
  }

  lemma NextWriterCompetes(p: Plan, db: Db, ids: seq<Id>, next: Id, a: nat, n: nat)
    requires IdsAssigned(p, db, ids, next) && a < n == |ids| && !StandingAt(ids, a, n)
    ensures !StandsBefore(p, a, n)
  {
    var b := NextWriter(ids, a, n);
    assert Repeats(ids, b) && Placed(p, db, ids, b, next);
    var c :| 0 <= c < b && ids[c] == ids[b] && StandingAt(ids, c, b) && Alike(p.syms[c], p.syms[b]);
    assert c == a;
  }

  /** A row of another file is still its own when a turn comes exactly if no earlier symbol has its fqn. */
  lemma HolderUntaken(p: Plan, db: Db, w: Writing, h: Id)
    requires OnTrack(p, db) && Pass3(p, db, w) && |w.ids| < |p.syms| && Holder(p, db, h, |w.ids|)
    ensures h in w.ids <==> HasEarlierFqn(p.syms, |w.ids|)
  {
    if h in w.ids {
      var i :| 0 <= i < |w.ids| && w.ids[i] == h;
      var c := TakenOverForItsFqn(p, db, w.ids, w.db.nextNode, i);
    }
    if HasEarlierFqn(p.syms, |w.ids|) {
      var i :| 0 <= i < |w.ids| && p.syms[i].fqn == p.syms[|w.ids|].fqn;
      assert Holder(p, db, h, i);
    }
  }

  /** What the turn of symbol `|w.ids|` meets, with the ids and without. */
  lemma TurnForetold(p: Plan, db: Db, w: Writing)
    requires OnTrack(p, db) && Pass3(p, db, w) && |w.ids| < |p.syms|
    requires forall a :: 0 <= a < |w.ids| ==> (Standing(w.ids, a) <==> StandsBefore(p, a, |w.ids|))
    ensures TurnBlocked(p, db, w.ids) <==> WillBlock(p, db, |w.ids|)
  {
    forall h | Holder(p, db, h, |w.ids|)
      ensures h in w.ids <==> HasEarlierFqn(p.syms, |w.ids|)
    {
      HolderUntaken(p, db, w, h);
    }
    if Matched(p, |w.ids|) {
      ClaimedTurnForetold(p, db, w.ids);
    } else {
      FreshTurnForetold(p, db, w.ids);
    }
  }

  lemma ClaimedTurnForetold(p: Plan, db: Db, ids: seq<Id>)
    requires |ids| < |p.syms| == |p.matched| && Matched(p, |ids|)
    requires forall a :: 0 <= a < |ids| ==> (Standing(ids, a) <==> StandsBefore(p, a, |ids|))
    requires forall h :: Holder(p, db, h, |ids|) ==> (h in ids <==> HasEarlierFqn(p.syms, |ids|))
    ensures TurnBlocked(p, db, ids) <==> WillBlock(p, db, |ids|)
  {
    var k := |ids|;
    if a: nat :| StandsBefore(p, a, k) && Alike(p.syms[a], p.syms[k]) {
      assert NameHeld(p, db, ids, ids[a]) || PlaceHeld(p, ids, ids[a]);
    }
    if MeetsForeignFqn(p, db, k) {
      var h :| Holder(p, db, h, k);
      assert NameHeld(p, db, ids, h);
    }
  }

  lemma FreshTurnForetold(p: Plan, db: Db, ids: seq<Id>)
    requires |ids| < |p.syms| == |p.matched| && !Matched(p, |ids|)
    requires forall a :: 0 <= a < |ids| ==> (Standing(ids, a) <==> StandsBefore(p, a, |ids|))
    requires forall h :: Holder(p, db, h, |ids|) ==> (h in ids <==> HasEarlierFqn(p.syms, |ids|))
    ensures TurnBlocked(p, db, ids) <==> WillBlock(p, db, |ids|)
  {
    var k := |ids|;
    if c: nat :| && StandsBefore(p, c, k) && SamePlace(p, c, k)
                 && (MeetsForeignFqn(p, db, k) || MeetsFqnBeside(p, c, k)) {
      assert PlaceHeld(p, ids, ids[c]);
      if MeetsForeignFqn(p, db, k) {
        var h :| Holder(p, db, h, k);
        assert NameHeld(p, db, ids, h);
      } else {
        var a :| 0 <= a < k && a != c && StandsBefore(p, a, k) && SameFqn(p, a, k);
        assert NameHeld(p, db, ids, ids[a]);
        OneLastWriter(ids, c);
      }
    }
    if r, q :| r != q && NameHeld(p, db, ids, r) && PlaceHeld(p, ids, q) {
      var c :| 0 <= c < |ids| && ids[c] == q && Standing(ids, c) && SymKey("", p.syms[c]) == SymKey("", p.syms[k]);
      assert SamePlace(p, c, k);
      if r in ids {
        var a :| 0 <= a < |ids| && ids[a] == r && Standing(ids, a) && p.syms[a].fqn == p.syms[k].fqn;
        assert SameFqn(p, a, k);
      }
    }
  }

  lemma BlockForetold(p: Plan, db: Db, k: nat)
    requires OnTrack(p, db) && k < |p.syms| && Replay3(p, db, k).Some?
    ensures BlockedAt(p, db, k) <==> WillBlock(p, db, k)
  {
    var w := Replay3(p, db, k).value;
    Replay3Means(p, db, k);
    forall a | 0 <= a < k
      ensures Standing(w.ids, a) <==> StandsBefore(p, a, k)
    {
      StandsExactly(p, db, k, a);
    }
    TurnForetold(p, db, w);
  }

  /** A symbol that will be blocked stops the transaction, at its turn or before. */
  lemma WillBlockStopsIt(p: Plan, db: Db, k: nat)
    requires OnTrack(p, db) && WillBlock(p, db, k)
    ensures Replay3(p, db, |p.syms|).None? && Replay(p, db).None?
  {
    FoldMonotone(WriteStep(p), Writing(ParkedDb(p, db), []), k, |p.syms|);
    if Replay3(p, db, k).Some? {
      BlockForetold(p, db, k);
      BlockedStopsIt(p, db, k);
    }
  }

  lemma CollisionForetold(p: Plan, db: Db)
    requires OnTrack(p, db) && Replay3(p, db, |p.syms|).Some?
    ensures StandingCollisionAfter(p, db) <==> WillCollide(p)
  {
    var n, ids := |p.syms|, Replay3(p, db, |p.syms|).value.ids;
    SameIdsBefore(p, db, n, n);
    forall a | 0 <= a < n
      ensures Standing(ids, a) <==> StandsBefore(p, a, n)
    {
      StandsExactly(p, db, n, a);
    }
    if WillCollide(p) {
      var j: nat, i: nat :| j < |p.olds| && StandsBefore(p, i, n) && CollidesAt(p, j, i);
      assert CollidesStanding(p, ids, j);
    }
  }

  /** Whatever the list, a reconcile fails if and only if the list and the stored rows foretell it. */
  lemma ForetoldExactly(p: Plan, db: Db)
    requires OnTrack(p, db) && RealLines(db.nodes)
    ensures Replay(p, db).None? <==> Foretold(p, db)
  {
    StoppedExactly(p, db);
    if k: nat :| WillBlock(p, db, k) {
      WillBlockStopsIt(p, db, k);
    }
    if k: nat :| BlockedAt(p, db, k) {
      BlockForetold(p, db, k);
    }
    if Replay3(p, db, |p.syms|).Some? {
      CollisionForetold(p, db);
    } else if ParentsFirst(p.syms) {
      StopsForetold(p, db);
    }
  }

  lemma StopsForetold(p: Plan, db: Db)
    requires OnTrack(p, db) && Replay3(p, db, |p.syms|).None? && ParentsFirst(p.syms)
    ensures exists k: nat :: WillBlock(p, db, k)
  {
    Replay3FailsExactly(p, db);
    var k: nat :| BlockedAt(p, db, k);
    BlockForetold(p, db, k);
  }

  // ----- lists in which places, or fqns, are distinct -----

  /** Of the earlier symbols with its fqn the last one stands, when places are distinct. */
  lemma {:induction false} LastNamesakeStands(p: Plan, a: nat, k: nat) returns (b: nat)
    requires a < k < |p.syms| == |p.matched| && DistinctPlaces(p.syms) && SameFqn(p, a, k)
    ensures StandsBefore(p, b, k) && SameFqn(p, b, k)
    decreases k - a
  {
    if c :| a < c < k && SameFqn(p, c, k) {
      b := LastNamesakeStands(p, c, k);
    } else {
      b := a;
      forall c | a < c < k
        ensures !Alike(p.syms[a], p.syms[c])
      {
        assert !SameFqn(p, c, k);
      }
    }
  }

  lemma {:induction false} LastNeighborStands(p: Plan, a: nat, k: nat) returns (b: nat)
    requires a < k <= |p.syms| == |p.matched| && DistinctSymFqns(p.syms)
    ensures a <= b && StandsBefore(p, b, k) && SamePlace(p, a, b)
    decreases k - a
  {
    if c :| a < c < k && SamePlace(p, a, c) {
      b := LastNeighborStands(p, c, k);
    } else {
      b := a;
      forall c | a < c < k
        ensures !Alike(p.syms[a], p.syms[c])
      {
        assert !SamePlace(p, a, c);
      }
    }
  }

  predicate NoLaterFqn(syms: seq<ReconcileSymbol>, i: nat)
    requires i < |syms|
  {
    forall b :: i < b < |syms| ==> syms[b].fqn != syms[i].fqn
  }

  /** Distinct places, as with overloads: exactly if a claimed symbol has an fqn that an earlier symbol or another
      file's row has, or an unclaimed row has the place of the last symbol with some fqn. */
  lemma DistinctPlacesFailsExactly(p: Plan, db: Db)
    requires OnTrack(p, db) && RealLines(db.nodes) && ParentsFirst(p.syms) && DistinctPlaces(p.syms)
    ensures Replay(p, db).None? <==>
              || (exists k: nat :: k < |p.syms| && Matched(p, k) && (HasEarlierFqn(p.syms, k) || HasHolder(p, db, k)))
              || (exists j: nat, i: nat :: j < |p.olds| && i < |p.syms| && NoLaterFqn(p.syms, i) && CollidesAt(p, j, i))
  {
    ForetoldExactly(p, db);
    forall k: nat | k < |p.syms|
      ensures WillBlock(p, db, k) <==> Matched(p, k) && (HasEarlierFqn(p.syms, k) || HasHolder(p, db, k))
    {
      BlockByFqn(p, db, k);
    }
    if j: nat, i: nat :| j < |p.olds| && i < |p.syms| && NoLaterFqn(p.syms, i) && CollidesAt(p, j, i) {
      assert StandsBefore(p, i, |p.syms|);
    }
    if j: nat, i: nat :| j < |p.olds| && StandsBefore(p, i, |p.syms|) && CollidesAt(p, j, i) {
      if b :| i < b < |p.syms| && p.syms[b].fqn == p.syms[i].fqn {
        assert Matched(p, b) && HasEarlierFqn(p.syms, b);
      }
    }
  }

  lemma BlockByFqn(p: Plan, db: Db, k: nat)
    requires |p.syms| == |p.matched| && DistinctPlaces(p.syms) && k < |p.syms|
    ensures WillBlock(p, db, k) <==> Matched(p, k) && (HasEarlierFqn(p.syms, k) || HasHolder(p, db, k))
  {
    if HasEarlierFqn(p.syms, k) {
      var a :| 0 <= a < k && p.syms[a].fqn == p.syms[k].fqn;
      var b := LastNamesakeStands(p, a, k);
      assert Alike(p.syms[b], p.syms[k]);
    }
  }

  /** Distinct fqns: exactly if a claimed symbol has a place an earlier symbol has, or an fqn another file's row has, or
      an unclaimed one both, or an unclaimed row has a symbol's place. */
  lemma DistinctFqnsFailsExactly(p: Plan, db: Db)
    requires OnTrack(p, db) && RealLines(db.nodes) && ParentsFirst(p.syms) && DistinctSymFqns(p.syms)
    ensures Replay(p, db).None? <==>
              || (exists k: nat :: k < |p.syms| && Matched(p, k) && (HasEarlierPlace(p.syms, k) || HasHolder(p, db, k)))
              || (exists k: nat :: k < |p.syms| && !Matched(p, k) && HasEarlierPlace(p.syms, k) && HasHolder(p, db, k))
              || Collision(p)
  {
    ForetoldExactly(p, db);
    forall k: nat | k < |p.syms|
      ensures WillBlock(p, db, k) <==> if Matched(p, k) then HasEarlierPlace(p.syms, k) || HasHolder(p, db, k)
                                       else HasEarlierPlace(p.syms, k) && HasHolder(p, db, k)
    {
      BlockByPlace(p, db, k);
    }
    if Collision(p) {
      var j: nat, i: nat :| j < |p.olds| && i < |p.syms| && CollidesAt(p, j, i);
      var b := LastNeighborStands(p, i, |p.syms|);
      assert CollidesAt(p, j, b);
    }
  }

  lemma BlockByPlace(p: Plan, db: Db, k: nat)
    requires |p.syms| == |p.matched| && DistinctSymFqns(p.syms) && k < |p.syms|
    ensures WillBlock(p, db, k) <==> if Matched(p, k) then HasEarlierPlace(p.syms, k) || HasHolder(p, db, k)
                                     else HasEarlierPlace(p.syms, k) && HasHolder(p, db, k)
  {
    if HasEarlierPlace(p.syms, k) {
      var a :| 0 <= a < k && SymKey("", p.syms[a]) == SymKey("", p.syms[k]);
      var b := LastNeighborStands(p, a, k);
      assert Alike(p.syms[b], p.syms[k]) && SamePlace(p, b, k);
    }
  }

  /** Without competing symbols: exactly if an unclaimed, not yet orphaned row has an incoming symbol's place, or a
      renamed row would get an fqn that another file's row has. */
  lemma AdmissibleFailsExactly(p: Plan, db: Db)
    requires Planned(p, db) && Admissible(db, p.syms)
    ensures Replay(p, db).None? <==> Collision(p) || NameTaken(p, db)
  {
    forall a, b | 0 <= a < b < |p.syms|
      ensures p.syms[a].fqn != p.syms[b].fqn && SymKey("", p.syms[a]) != SymKey("", p.syms[b])
    {
      assert !Alike(p.syms[a], p.syms[b]);
    }
    DistinctFqnsFailsExactly(p, db);
  }

  /** A claimed symbol whose fqn an earlier symbol has, in a list where places are distinct, or whose place
      an earlier symbol has, in a list where fqns are distinct, always stops the transaction. */
  lemma ClaimedRivalStopsIt(p: Plan, db: Db, a: nat, b: nat)
    requires OnTrack(p, db) && a < b < |p.syms| && Matched(p, b)
    requires || (p.syms[a].fqn == p.syms[b].fqn && DistinctPlaces(p.syms))
             || (SymKey("", p.syms[a]) == SymKey("", p.syms[b]) && DistinctSymFqns(p.syms))
    ensures Replay(p, db).None?
  {
    if DistinctPlaces(p.syms) && p.syms[a].fqn == p.syms[b].fqn {
      BlockByFqn(p, db, b);
    } else {
      BlockByPlace(p, db, b);
    }
    WillBlockStopsIt(p, db, b);
  }
}
