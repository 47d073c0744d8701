/**
 What reuse analysis promises about memory (crates/nexl-memory/src/lib.rs): a recorded token is a cell with room for
 exactly the fields or captures of its new owner, and an allocation goes without one only when there is none.
*/
module ReuseSizes {
  import opened Basics
  import opened AnfIr
  import opened ReuseAnalysis

  /** Step `i` allocates a cell for `v` that stores `n` fields or captures. */
  predicate Stores(steps: seq<RcStep>, i: nat, v: VarId, n: nat) {
    i < |steps| && steps[i].Bind? && steps[i].bind.v == v &&
    match steps[i].bind.rhs
    case MakeTuple(_, fields) => |fields| == n
    case MakeClosure(_, captures) => |captures| == n
    case _ => false
  }

  predicate Drops(steps: seq<RcStep>, d: nat, v: VarId) {
    d < |steps| && steps[d] == Rc(Drop(v))
  }

  lemma {:induction false} CountedAt(steps: seq<RcStep>, i: nat, v: VarId, n: nat)
    requires SingleSteps(steps) && Stores(steps, i, v, n)
    ensures v in SlotCounts(steps) && SlotCounts(steps)[v] == n + 1
  {
    var init, last := steps[..|steps| - 1], steps[|steps| - 1];
    if i < |init| {
      assert init[i] == steps[i];
      CountedAt(init, i, v, n);
    }
  }

  lemma {:induction false} CountedBy(steps: seq<RcStep>, v: VarId) returns (i: nat, n: nat)
    requires v in SlotCounts(steps)
    ensures Stores(steps, i, v, n) && SlotCounts(steps)[v] == n + 1
  {
    var init, last := steps[..|steps| - 1], steps[|steps| - 1];
    if last.Bind? && last.bind.v == v && AllocSlots(last.bind.rhs).Some? {
      i, n := |init|, AllocSlots(last.bind.rhs).value - 1;
    } else {
      i, n := CountedBy(init, v);
      assert init[i] == steps[i];
    }
  }

  /** The dropped cell of step `d` was allocated for `n` fields or captures. */
  lemma DropStores(steps: seq<RcStep>, d: nat, b: nat, x: VarId, n: nat)
    requires SingleSteps(steps) && Drops(steps, d, x) && Stores(steps, b, x, n)
    ensures DropSize(steps, d) == Some(n + 1)
  {
    hide SlotCounts;
    CountedAt(steps, b, x, n);
  }

  lemma DropOf(steps: seq<RcStep>, d: nat, size: nat) returns (x: VarId, b: nat, n: nat)
    requires DropSize(steps, d) == Some(size)
    ensures Drops(steps, d, x) && Stores(steps, b, x, n) && size == n + 1 && TokenOf(steps, d) == ReuseToken(x, n + 1)
  {
    hide SlotCounts;
    x := steps[d].op.v;
    b, n := CountedBy(steps, x);
  }

  lemma AllocStores(steps: seq<RcStep>, a: nat)
    ensures forall v, n :: Stores(steps, a, v, n) ==> AllocSize(steps, a) == Some(n + 1)
    ensures AllocSize(steps, a).Some? ==>
            exists n :: AllocSize(steps, a).value == n + 1 && Stores(steps, a, steps[a].bind.v, n)
  {
    if AllocSize(steps, a).Some? {
      assert Stores(steps, a, steps[a].bind.v, AllocSize(steps, a).value - 1);
    }
  }

  /** The token gives `v` the cell of a variable dropped before, which stored as much as `v` does. */
  ghost predicate Fits(steps: seq<RcStep>, v: VarId, token: ReuseToken) {
    exists a: nat, d: nat, b: nat, n: nat ::
      Stores(steps, a, v, n) && d < a && Drops(steps, d, token.droppedVar) && Stores(steps, b, token.droppedVar, n) &&
      token.slotCount == n + 1
  }

  lemma ChosenFits(steps: seq<RcStep>, a: nat)
    requires a in Greedy(steps, |steps|).chosen && a < |steps| && steps[a].Bind?
    requires DropSize(steps, Greedy(steps, |steps|).chosen[a]).Some?
    ensures Fits(steps, steps[a].bind.v, TokenOf(steps, Greedy(steps, |steps|).chosen[a]))
  {
    hide Greedy, DropSize, AllocSize, Stores, Drops;
    ReuseIsLinear(steps);
    var d := Greedy(steps, |steps|).chosen[a];
    AllocStores(steps, a);
    var x, b, n := DropOf(steps, d, DropSize(steps, d).value);
    assert Stores(steps, a, steps[a].bind.v, n);
  }

  /** Every token of a single-assignment block fits its new owner. */
  lemma TokensFit(steps: seq<RcStep>)
    requires SingleSteps(steps)
    ensures var result := Recorded(steps, map[], |steps|); forall v <- result :: Fits(steps, v, result[v])
  {
    hide Greedy, Recorded, DropSize, Fits, SingleSteps, TokenOf;
    var result, chosen := Recorded(steps, map[], |steps|), Greedy(steps, |steps|).chosen;
    RecordedAll(steps, map[], |steps|);
    forall v | v in result ensures Fits(steps, v, result[v]) {
      var a :| a in chosen && a < |steps| && steps[a].Bind? && steps[a].bind.v == v;
      ChosenFits(steps, a);
    }
  }

  /** A dropped cell is available until it is taken. */
  lemma {:induction false} DropsKept(steps: seq<RcStep>, k: nat, d: nat)
    requires d < k && DropSize(steps, d).Some?
    ensures d in Greedy(steps, k).available ||
            exists a :: a in Greedy(steps, k).chosen && Greedy(steps, k).chosen[a] == d
  {
    hide DropSize, AllocSize, Greedy, ScanStep, Linear;
    var g := Greedy(steps, k - 1);
    GreedyStep(steps, k);
    GreedyLinear(steps, k - 1);
    if d < k - 1 { DropsKept(steps, k - 1, d); KeptStep(steps, g, k - 1, d); } else { NewDrop(steps, g, d); }
  }

  lemma GreedyStep(steps: seq<RcStep>, k: nat)
    requires k > 0
    ensures Greedy(steps, k) == ScanStep(steps, Greedy(steps, k - 1), k - 1)
  {
    hide ScanStep;
  }

  lemma NewDrop(steps: seq<RcStep>, g: Pairing, k: nat)
    requires DropSize(steps, k).Some?
    ensures k in ScanStep(steps, g, k).available
  {
    hide DropSize, AllocSize;
  }

  lemma KeptStep(steps: seq<RcStep>, g: Pairing, k: nat, d: nat)
    requires Linear(steps, g, k) && (d in g.available || exists a :: a in g.chosen && g.chosen[a] == d)
    ensures var next := ScanStep(steps, g, k);
            d in next.available || exists a :: a in next.chosen && next.chosen[a] == d
  {
    hide DropSize, AllocSize, Position;
    var next := ScanStep(steps, g, k);
    if d in g.available {
      var i :| 0 <= i < |g.available| && g.available[i] == d;
      if DropSize(steps, k).None? && AllocSize(steps, k).Some? {
        var p := Position(steps, g.available, AllocSize(steps, k).value);
        if p < |g.available| {
          if i == p { assert next.chosen[k] == d; } else { assert next.available[if i < p then i else i - 1] == d; }
        }
      }
    } else {
      var a :| a in g.chosen && g.chosen[a] == d;
      assert a < k && a in next.chosen && next.chosen[a] == d;
    }
  }

  lemma {:induction false} ChosenStays(steps: seq<RcStep>, k: nat, n: nat, a: nat)
    requires k <= n && a in Greedy(steps, k).chosen
    ensures a in Greedy(steps, n).chosen && Greedy(steps, n).chosen[a] == Greedy(steps, k).chosen[a]
    decreases n
  {
    hide DropSize, AllocSize, Position;
    if k < n {
      ChosenStays(steps, k, n - 1, a);
      GreedyLinear(steps, n - 1);
    }
  }

  /** The drop at step `d` has been given to an allocation before step `a`. */
  ghost predicate TakenBefore(steps: seq<RcStep>, d: nat, a: nat) {
    exists earlier :: earlier < a && earlier in Greedy(steps, |steps|).chosen &&
      Greedy(steps, |steps|).chosen[earlier] == d
  }

  /** An allocation gets no token only when every earlier drop of a cell that stored as much has been taken. */
  lemma UnservedHasNone(steps: seq<RcStep>, a: nat, v: VarId, n: nat, d: nat, b: nat, x: VarId)
    requires SingleSteps(steps) && Stores(steps, a, v, n) && v !in Recorded(steps, map[], |steps|)
    requires d < a && Drops(steps, d, x) && Stores(steps, b, x, n)
    ensures TakenBefore(steps, d, a)
  {
    hide DropSize, AllocSize, Recorded, Stores, Drops, SingleSteps, TokenOf, Position;
    RecordedAll(steps, map[], |steps|);
    DropStores(steps, d, b, x, n);
    AllocStores(steps, a);
    StoresBinds(steps, a, v, n);
    assert a !in Greedy(steps, |steps|).chosen;
    DropsKept(steps, a, d);
    if d in Greedy(steps, a).available { Served(steps, a, d, n + 1); }
    var earlier :| earlier in Greedy(steps, a).chosen && Greedy(steps, a).chosen[earlier] == d;
    GreedyLinear(steps, a);
    ChosenStays(steps, a, |steps|, earlier);
  }

  lemma StoresBinds(steps: seq<RcStep>, a: nat, v: VarId, n: nat)
    requires Stores(steps, a, v, n)
    ensures a < |steps| && steps[a].Bind? && steps[a].bind.v == v && DropSize(steps, a).None?
  {
    hide SlotCounts;
  }

  /** An allocation is served when a drop of its size is available. */
  lemma Served(steps: seq<RcStep>, a: nat, d: nat, size: nat)
    requires a < |steps| && DropSize(steps, a).None? && AllocSize(steps, a) == Some(size)
    requires d in Greedy(steps, a).available && DropSize(steps, d) == Some(size)
    ensures a in Greedy(steps, |steps|).chosen
  {
    hide DropSize, AllocSize, Position, ScanStep;
    GreedyStep(steps, a + 1);
    Taken(steps, Greedy(steps, a), a, d, size);
    hide Greedy;
    ChosenStays(steps, a + 1, |steps|, a);
  }

  lemma Taken(steps: seq<RcStep>, g: Pairing, a: nat, d: nat, size: nat)
    requires DropSize(steps, a).None? && AllocSize(steps, a) == Some(size)
    requires d in g.available && DropSize(steps, d) == Some(size)
    ensures a in ScanStep(steps, g, a).chosen
  {
    hide DropSize, AllocSize;
    var i :| 0 <= i < |g.available| && g.available[i] == d;
    assert Position(steps, g.available, size) <= i;
  }

  ghost predicate Ascending(s: seq<nat>) {
    forall i, j | 0 <= i < j < |s| :: s[i] < s[j]
  }

  lemma {:induction false} AvailableAscends(steps: seq<RcStep>, k: nat)
    ensures Ascending(Greedy(steps, k).available)
  {
    hide DropSize, AllocSize, Position;
    if k > 0 {
      AvailableAscends(steps, k - 1);
      GreedyLinear(steps, k - 1);
    }
  }

  /** An allocation served at `a` took the first drop of its size. */
  lemma ChosenFirst(steps: seq<RcStep>, a: nat, d: nat, size: nat)
    requires a in Greedy(steps, a + 1).chosen && a !in Greedy(steps, a).chosen && AllocSize(steps, a) == Some(size)
    requires d in Greedy(steps, a).available && DropSize(steps, d) == Some(size)
    ensures Greedy(steps, a + 1).chosen[a] <= d
  {
    hide DropSize, AllocSize;
    AvailableAscends(steps, a);
    var available := Greedy(steps, a).available;
    var i :| 0 <= i < |available| && available[i] == d;
    assert Position(steps, available, size) <= i;
  }

  /** A token is the earliest one that fits: an earlier drop of a cell that stored as much has been taken before. */
  lemma EarliestTaken(steps: seq<RcStep>, a: nat, v: VarId, n: nat, d: nat, b: nat, x: VarId)
    requires SingleSteps(steps) && a in Greedy(steps, |steps|).chosen && Stores(steps, a, v, n)
    requires d < Greedy(steps, |steps|).chosen[a] && Drops(steps, d, x) && Stores(steps, b, x, n)
    ensures TakenBefore(steps, d, a)
  {
    hide DropSize, AllocSize, Greedy, Stores, Drops, SingleSteps;
    DropStores(steps, d, b, x, n);
    AllocStores(steps, a);
    StoresBinds(steps, a, v, n);
    GreedyLinear(steps, |steps|);
    GreedyLinear(steps, a);
    ChosenAtStep(steps, a, |steps|);
    DropsKept(steps, a, d);
    if d in Greedy(steps, a).available { ChosenFirst(steps, a, d, n + 1); }
    var earlier :| earlier in Greedy(steps, a).chosen && Greedy(steps, a).chosen[earlier] == d;
    ChosenStays(steps, a, |steps|, earlier);
  }

  lemma {:induction false} ChosenAtStep(steps: seq<RcStep>, a: nat, k: nat)
    requires a < k && a in Greedy(steps, k).chosen
    ensures a in Greedy(steps, a + 1).chosen && Greedy(steps, a + 1).chosen[a] == Greedy(steps, k).chosen[a]
    decreases k
  {
    hide DropSize, AllocSize, Position;
    if a + 1 < k { ChosenAtStep(steps, a, k - 1); }
  }
}
