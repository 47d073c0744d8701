/**
 Reuse analysis (crates/nexl-memory/src/lib.rs, `analyze_block_for_reuse`, `ReusePass`): a left-to-right scan pairs
 every heap allocation with the first dropped cell of the same size. The pairing is linear and optimal.
*/
module ReuseAnalysis {
  import opened Basics
  import opened AnfIr

  datatype ReuseToken = ReuseToken(droppedVar: VarId, slotCount: nat)

  type ReuseMap = map<VarId, ReuseToken>

  /** The first pass: the slot counts of all variables bound in the block. */
  function SlotCounts(steps: seq<RcStep>): map<VarId, nat> {
    if steps == [] then map[]
    else
      var before, last := SlotCounts(steps[..|steps| - 1]), steps[|steps| - 1];
      if last.Bind? && AllocSlots(last.bind.rhs).Some? then
        before[last.bind.v := AllocSlots(last.bind.rhs).value]
      else before
  }

  /** The size of the cell that step `i` drops, if the block knows it. */
  function DropSize(steps: seq<RcStep>, i: nat): Option<nat> {
    if i < |steps| && steps[i].Rc? && steps[i].op.Drop? && steps[i].op.v in SlotCounts(steps) then
      Some(SlotCounts(steps)[steps[i].op.v])
    else None
  }

  /** The size of the cell that step `i` allocates. */
  function AllocSize(steps: seq<RcStep>, i: nat): Option<nat> {
    if i < |steps| && steps[i].Bind? then AllocSlots(steps[i].bind.rhs) else None
  }

  /** Dropped steps still available, in order, and the drop step chosen by each allocation step. */
  datatype Pairing = Pairing(available: seq<nat>, chosen: map<nat, nat>)

  /** The index in `available` of the first drop of `size`; its length if there is none. */
  function Position(steps: seq<RcStep>, available: seq<nat>, size: nat): (p: nat)
    ensures p <= |available|
    ensures p < |available| ==> DropSize(steps, available[p]) == Some(size)
    ensures forall q | 0 <= q < p :: DropSize(steps, available[q]) != Some(size)
  {
    if available == [] then 0
    else if DropSize(steps, available[0]) == Some(size) then 0
    else 1 + Position(steps, available[1..], size)
  }

  /** `Vec::remove`. */
  function Without<T>(s: seq<T>, p: nat): (r: seq<T>)
    requires p < |s|
    ensures |r| == |s| - 1 && forall i | 0 <= i < |r| :: r[i] == s[if i < p then i else i + 1]
  {
    s[..p] + s[p + 1..]
  }

  /** One turn of the scan loop. */
  function ScanStep(steps: seq<RcStep>, g: Pairing, k: nat): Pairing {
    if DropSize(steps, k).Some? then g.(available := g.available + [k])
    else
      match AllocSize(steps, k)
      case None => g
      case Some(size) =>
        var p := Position(steps, g.available, size);
        if p < |g.available| then Pairing(Without(g.available, p), g.chosen[k := g.available[p]]) else g
  }

  /** The greedy scan over the first `k` steps. */
  function Greedy(steps: seq<RcStep>, k: nat): Pairing {
    if k == 0 then Pairing([], map[]) else ScanStep(steps, Greedy(steps, k - 1), k - 1)
  }

  /** A way of reusing memory: every allocation in `m` takes an earlier dropped cell of its size, none taken twice. */
  ghost predicate IsPairing(steps: seq<RcStep>, m: map<nat, nat>) {
    && (forall a <- m :: a < |steps| && m[a] < a)
    && (forall a <- m :: AllocSize(steps, a).Some? && DropSize(steps, m[a]) == AllocSize(steps, a))
    && (forall a, b | a in m && b in m && a != b :: m[a] != m[b])
  }

  // ---------------------------------------------------------------------------------------------
  // Linearity
  // ---------------------------------------------------------------------------------------------

  /** Drops are available or used once, and sizes agree; everything lies before step `k`. */
  ghost predicate Linear(steps: seq<RcStep>, g: Pairing, k: nat) {
    && (forall i | 0 <= i < |g.available| :: g.available[i] < k && DropSize(steps, g.available[i]).Some?)
    && (forall i, j | 0 <= i < j < |g.available| :: g.available[i] != g.available[j])
    && (forall a <- g.chosen :: a < k && g.chosen[a] < a && AllocSize(steps, a).Some?)
    && (forall a <- g.chosen :: DropSize(steps, g.chosen[a]) == AllocSize(steps, a))
    && (forall a, i | a in g.chosen && 0 <= i < |g.available| :: g.chosen[a] != g.available[i])
    && (forall a, b | a in g.chosen && b in g.chosen && a != b :: g.chosen[a] != g.chosen[b])
  }

  lemma StepLinear(steps: seq<RcStep>, g: Pairing, k: nat)
    requires Linear(steps, g, k)
    ensures Linear(steps, ScanStep(steps, g, k), k + 1)
  {
    hide DropSize, AllocSize, Linear, Position;
    LinearLater(steps, g, k);
    if DropSize(steps, k).Some? {
      LinearDrop(steps, g, k);
    } else if AllocSize(steps, k).Some? {
      var p := Position(steps, g.available, AllocSize(steps, k).value);
      if p < |g.available| { LinearTake(steps, g, k, p); }
    }
  }

  lemma LinearLater(steps: seq<RcStep>, g: Pairing, k: nat)
    requires Linear(steps, g, k)
    ensures Linear(steps, g, k + 1)
  {
    hide DropSize, AllocSize;
  }

  lemma LinearDrop(steps: seq<RcStep>, g: Pairing, k: nat)
    requires Linear(steps, g, k) && DropSize(steps, k).Some?
    ensures Linear(steps, g.(available := g.available + [k]), k + 1)
  {
    hide DropSize, AllocSize;
  }

  lemma LinearTake(steps: seq<RcStep>, g: Pairing, k: nat, p: nat)
    requires Linear(steps, g, k) && p < |g.available| && AllocSize(steps, k).Some?
    requires DropSize(steps, g.available[p]) == AllocSize(steps, k)
    ensures Linear(steps, Pairing(Without(g.available, p), g.chosen[k := g.available[p]]), k + 1)
  {
    hide DropSize, AllocSize;
    var rest, chosen := Without(g.available, p), g.chosen[k := g.available[p]];
    hide Without;
    assert forall a, i | a in chosen && 0 <= i < |rest| :: chosen[a] != rest[i];
    assert forall i, j | 0 <= i < j < |rest| :: rest[i] != rest[j];
  }

  lemma {:induction false} GreedyLinear(steps: seq<RcStep>, k: nat)
    ensures Linear(steps, Greedy(steps, k), k)
  {
    hide ScanStep;
    if k > 0 {
      GreedyLinear(steps, k - 1);
      StepLinear(steps, Greedy(steps, k - 1), k - 1);
    }
  }

  /** Every recorded token comes from a strictly earlier drop of the same size, and no drop is used twice. */
  lemma ReuseIsLinear(steps: seq<RcStep>)
    ensures IsPairing(steps, Greedy(steps, |steps|).chosen)
  {
    hide DropSize, AllocSize, Greedy;
    GreedyLinear(steps, |steps|);
  }

  // ---------------------------------------------------------------------------------------------
  // Optimality
  // ---------------------------------------------------------------------------------------------

  /** Drops of size `n` among the first `k` steps. */
  function DropsOf(steps: seq<RcStep>, n: nat, k: nat): set<nat>
  {
    set i | 0 <= i < k && DropSize(steps, i) == Some(n)
  }

  /** Allocations of size `n` among the first `k` steps that `keys` contains. */
  function AllocsOf(steps: seq<RcStep>, keys: set<nat>, n: nat, k: nat): set<nat>
  {
    set i | 0 <= i < k && i in keys && AllocSize(steps, i) == Some(n)
  }

  function AvailableOf(steps: seq<RcStep>, available: seq<nat>, n: nat): nat {
    if available == [] then 0
    else
      var last := available[|available| - 1];
      AvailableOf(steps, available[..|available| - 1], n) + if DropSize(steps, last) == Some(n) then 1 else 0
  }

  lemma {:induction false} AvailableConcat(steps: seq<RcStep>, a: seq<nat>, b: seq<nat>, n: nat)
    ensures AvailableOf(steps, a + b, n) == AvailableOf(steps, a, n) + AvailableOf(steps, b, n)
  {
    hide DropSize;
    if b == [] {
      assert a + b == a;
    } else {
      assert (a + b)[..|a + b| - 1] == a + b[..|b| - 1];
      AvailableConcat(steps, a, b[..|b| - 1], n);
    }
  }

  lemma {:induction false} AvailableNone(steps: seq<RcStep>, available: seq<nat>, n: nat)
    requires forall q | 0 <= q < |available| :: DropSize(steps, available[q]) != Some(n)
    ensures AvailableOf(steps, available, n) == 0
  {
    hide DropSize;
    if available != [] {
      AvailableNone(steps, available[..|available| - 1], n);
    }
  }

  lemma AvailableOne(steps: seq<RcStep>, d: nat, n: nat)
    ensures AvailableOf(steps, [d], n) == if DropSize(steps, d) == Some(n) then 1 else 0
  {
    assert [d][..0] == [];
  }

  /** The balance of the greedy scan: what was dropped is either available or used. */
  lemma {:induction false} Balance(steps: seq<RcStep>, n: nat, k: nat)
    ensures var g := Greedy(steps, k);
            AvailableOf(steps, g.available, n) + |AllocsOf(steps, g.chosen.Keys, n, k)| == |DropsOf(steps, n, k)|
  {
    hide ScanStep, AvailableOf, AllocsOf, DropsOf, DropSize, AllocSize;
    if k == 0 {
      AvailableNone(steps, [], n);
      NoAllocs(steps, Greedy(steps, 0).chosen.Keys, n);
    } else {
      Balance(steps, n, k - 1);
      GreedyLinear(steps, k - 1);
      StepCounts(steps, Greedy(steps, k - 1), n, k - 1);
      DropsStep(steps, n, k);
      AllocsStep(steps, Greedy(steps, k).chosen.Keys, n, k);
      AllocsSame(steps, Greedy(steps, k - 1).chosen.Keys, n, k - 1);
    }
  }

  /** What one turn of the scan does to the drops and allocations of size `n`. */
  lemma StepCounts(steps: seq<RcStep>, g: Pairing, n: nat, k: nat)
    requires k !in g.chosen
    ensures
      var next := ScanStep(steps, g, k);
      var served := k in next.chosen && AllocSize(steps, k) == Some(n);
      && (next.chosen.Keys == g.chosen.Keys || next.chosen.Keys == g.chosen.Keys + {k})
      && AvailableOf(steps, next.available, n) + (if served then 1 else 0)
      == AvailableOf(steps, g.available, n) + (if DropSize(steps, k) == Some(n) then 1 else 0)
      && (AllocSize(steps, k) == Some(n) && !served ==> AvailableOf(steps, g.available, n) == 0)
  {
    hide DropSize, AllocSize, AvailableOf, Position;
    DropAllocExclusive(steps, k);
    var next := ScanStep(steps, g, k);
    if DropSize(steps, k).Some? {
      AvailableConcat(steps, g.available, [k], n);
      AvailableOne(steps, k, n);
    } else if AllocSize(steps, k).Some? {
      var p := Position(steps, g.available, AllocSize(steps, k).value);
      if p < |g.available| {
        var left, right := g.available[..p], g.available[p + 1..];
        assert g.available == left + ([g.available[p]] + right);
        AvailableConcat(steps, left, [g.available[p]] + right, n);
        AvailableConcat(steps, [g.available[p]], right, n);
        AvailableConcat(steps, left, right, n);
        AvailableOne(steps, g.available[p], n);
        assert next.chosen.Keys == g.chosen.Keys + {k};
      } else if AllocSize(steps, k).value == n {
        AvailableNone(steps, g.available, n);
      }
    }
  }

  lemma DropAllocExclusive(steps: seq<RcStep>, i: nat)
    ensures DropSize(steps, i).None? || AllocSize(steps, i).None?
  {
  }

  lemma DropsStep(steps: seq<RcStep>, n: nat, k: nat)
    requires 0 < k
    ensures |DropsOf(steps, n, k)| == |DropsOf(steps, n, k - 1)| + if DropSize(steps, k - 1) == Some(n) then 1 else 0
  {
    hide DropSize;
    var was := DropsOf(steps, n, k - 1);
    assert DropsOf(steps, n, k) == if DropSize(steps, k - 1) == Some(n) then was + {k - 1} else was;
  }

  lemma AllocsStep(steps: seq<RcStep>, keys: set<nat>, n: nat, k: nat)
    requires 0 < k
    ensures |AllocsOf(steps, keys, n, k)| ==
            |AllocsOf(steps, keys, n, k - 1)| + if k - 1 in keys && AllocSize(steps, k - 1) == Some(n) then 1 else 0
  {
    hide AllocSize;
    var was := AllocsOf(steps, keys, n, k - 1);
    assert AllocsOf(steps, keys, n, k) ==
      if k - 1 in keys && AllocSize(steps, k - 1) == Some(n) then was + {k - 1} else was;
  }

  lemma AllocsSame(steps: seq<RcStep>, keys: set<nat>, n: nat, k: nat)
    ensures AllocsOf(steps, keys, n, k) == AllocsOf(steps, keys + {k}, n, k)
  {
  }

  lemma {:induction false} InjectiveImage(m: map<nat, nat>, from: set<nat>, to: set<nat>)
    requires forall a <- from :: a in m && m[a] in to
    requires forall a, b | a in from && b in from && a != b :: m[a] != m[b]
    ensures |from| <= |to|
    decreases from
  {
    if from != {} {
      var a :| a in from;
      InjectiveImage(m, from - {a}, to - {m[a]});
    }
  }

  /** Up to any step, no pairing serves more allocations of one size than the greedy one. */
  lemma {:induction false} GreedyAhead(steps: seq<RcStep>, m: map<nat, nat>, n: nat, k: nat)
    requires IsPairing(steps, m)
    ensures |AllocsOf(steps, m.Keys, n, k)| <= |AllocsOf(steps, Greedy(steps, k).chosen.Keys, n, k)|
  {
    hide DropSize, AllocSize, AvailableOf, AllocsOf, DropsOf, ScanStep;
    if k == 0 {
      NoAllocs(steps, m.Keys, n);
    } else {
      GreedyAhead(steps, m, n, k - 1);
      var g, next := Greedy(steps, k - 1), Greedy(steps, k);
      AllocsStep(steps, m.Keys, n, k);
      AllocsStep(steps, next.chosen.Keys, n, k);
      AllocsSame(steps, g.chosen.Keys, n, k - 1);
      GreedyLinear(steps, k - 1);
      StepCounts(steps, g, n, k - 1);
      if k - 1 in m && AllocSize(steps, k - 1) == Some(n) && k - 1 !in next.chosen {
        Balance(steps, n, k - 1);
        EarlierDrops(steps, m, n, k);
      }
    }
  }

  lemma NoAllocs(steps: seq<RcStep>, keys: set<nat>, n: nat)
    ensures AllocsOf(steps, keys, n, 0) == DropsOf(steps, n, 0) == {}
  {
  }

  /** The first `k` steps cannot serve more allocations than there are drops before the last of them. */
  lemma EarlierDrops(steps: seq<RcStep>, m: map<nat, nat>, n: nat, k: nat)
    requires IsPairing(steps, m) && k > 0
    ensures |AllocsOf(steps, m.Keys, n, k)| <= |DropsOf(steps, n, k - 1)|
  {
    hide DropSize, AllocSize;
    InjectiveImage(m, AllocsOf(steps, m.Keys, n, k), DropsOf(steps, n, k - 1));
  }

  /** The words reused by the allocations in `keys` among the first `k` steps. */
  function ReusedSlots(steps: seq<RcStep>, keys: set<nat>, k: nat): nat
  {
    if k == 0 then 0
    else
      var words := if k - 1 in keys then AllocSize(steps, k - 1).GetOr(0) else 0;
      ReusedSlots(steps, keys, k - 1) + words
  }

  /** The same, summed size by size up to `n`. */
  function SlotsBySize(steps: seq<RcStep>, keys: set<nat>, k: nat, n: nat): nat
  {
    n * |AllocsOf(steps, keys, n, k)| + if n == 0 then 0 else SlotsBySize(steps, keys, k, n - 1)
  }

  lemma {:induction false} BySizeStep(steps: seq<RcStep>, keys: set<nat>, k: nat, n: nat)
    requires 0 < k
    ensures SlotsBySize(steps, keys, k, n) == SlotsBySize(steps, keys, k - 1, n)
          + if k - 1 in keys && AllocSize(steps, k - 1).GetOr(0) <= n then AllocSize(steps, k - 1).GetOr(0) else 0
  {
    hide AllocSize, AllocsOf;
    AllocsStep(steps, keys, n, k);
    var was := |AllocsOf(steps, keys, n, k - 1)|;
    assert n * (was + 1) == n * was + n;
    if n > 0 { BySizeStep(steps, keys, k, n - 1); }
  }

  lemma {:induction false} BySizeTotal(steps: seq<RcStep>, keys: set<nat>, k: nat, n: nat)
    requires forall i | 0 <= i < |steps| :: AllocSize(steps, i).GetOr(0) <= n
    requires k <= |steps|
    ensures ReusedSlots(steps, keys, k) == SlotsBySize(steps, keys, k, n)
  {
    hide AllocSize;
    if k == 0 {
      BySizeEmpty(steps, keys, n);
    } else {
      BySizeTotal(steps, keys, k - 1, n);
      BySizeStep(steps, keys, k, n);
    }
  }

  lemma {:induction false} BySizeEmpty(steps: seq<RcStep>, keys: set<nat>, n: nat)
    ensures SlotsBySize(steps, keys, 0, n) == 0
  {
    hide AllocSize;
    assert AllocsOf(steps, keys, n, 0) == {};
    if n > 0 { BySizeEmpty(steps, keys, n - 1); }
  }

  lemma {:induction false} BySizeMonotone(steps: seq<RcStep>, few: set<nat>, many: set<nat>, k: nat, n: nat)
    requires forall i | 0 <= i <= n :: |AllocsOf(steps, few, i, k)| <= |AllocsOf(steps, many, i, k)|
    ensures SlotsBySize(steps, few, k, n) <= SlotsBySize(steps, many, k, n)
  {
    hide AllocsOf;
    var a, b := |AllocsOf(steps, few, n, k)|, |AllocsOf(steps, many, n, k)|;
    assert n * a <= n * b;
    if n > 0 { BySizeMonotone(steps, few, many, k, n - 1); }
  }

  function MaxSize(steps: seq<RcStep>, k: nat): (n: nat)
    ensures forall i | 0 <= i < k :: AllocSize(steps, i).GetOr(0) <= n
  {
    if k == 0 then 0
    else
      var rest, size := MaxSize(steps, k - 1), AllocSize(steps, k - 1).GetOr(0);
      if size > rest then size else rest
  }

  /** No assignment of earlier same-size drops to later allocations reuses more slots than the greedy one. */
  lemma ReuseIsOptimal(steps: seq<RcStep>, m: map<nat, nat>)
    requires IsPairing(steps, m)
    ensures ReusedSlots(steps, m.Keys, |steps|) <= ReusedSlots(steps, Greedy(steps, |steps|).chosen.Keys, |steps|)
  {
    hide AllocSize, DropSize, AllocsOf, Greedy, SlotsBySize, ReusedSlots, IsPairing;
    var k, n := |steps|, MaxSize(steps, |steps|);
    var best := Greedy(steps, k).chosen.Keys;
    forall i | 0 <= i <= n
      ensures |AllocsOf(steps, m.Keys, i, k)| <= |AllocsOf(steps, best, i, k)|
    {
      GreedyAhead(steps, m, i, k);
    }
    BySizeTotal(steps, m.Keys, k, n);
    BySizeTotal(steps, best, k, n);
    BySizeMonotone(steps, m.Keys, best, k, n);
  }

  // ---------------------------------------------------------------------------------------------
  // The pass
  // ---------------------------------------------------------------------------------------------

  function TokenOf(steps: seq<RcStep>, d: nat): ReuseToken
    requires DropSize(steps, d).Some?
  {
    ReuseToken(steps[d].op.v, DropSize(steps, d).value)
  }

  function TokensOf(steps: seq<RcStep>, available: seq<nat>): (tokens: seq<ReuseToken>)
    requires forall i | 0 <= i < |available| :: DropSize(steps, available[i]).Some?
    ensures |tokens| == |available|
    ensures forall i | 0 <= i < |tokens| :: tokens[i] == TokenOf(steps, available[i])
  {
    seq(|available|, i requires 0 <= i < |available| => TokenOf(steps, available[i]))
  }

  /** The map after the first `k` steps: every served allocation is recorded under the variable it binds. */
  function Recorded(steps: seq<RcStep>, m: ReuseMap, k: nat): ReuseMap
    requires k <= |steps|
  {
    if k == 0 then m
    else
      var chosen := Greedy(steps, k).chosen;
      var before := Recorded(steps, m, k - 1);
      if k - 1 in chosen && steps[k - 1].Bind? && DropSize(steps, chosen[k - 1]).Some? then
        before[steps[k - 1].bind.v := TokenOf(steps, chosen[k - 1])]
      else before
  }

  /** `analyze_block_for_reuse`. */
  method AnalyzeBlockForReuse(block: RcBlock, m: ReuseMap) returns (result: ReuseMap)
    ensures result == Recorded(block.steps, m, |block.steps|)
  {
    hide Greedy, Recorded, SlotCounts, AllocSlots;
    var steps := block.steps;
    var slotCounts: map<VarId, nat> := map[];
    NoSteps(steps, m);
    for i := 0 to |steps|
      invariant slotCounts == SlotCounts(steps[..i])
    {
      SlotCountsStep(steps, i);
      if steps[i].Bind? && AllocSlots(steps[i].bind.rhs).Some? {
        slotCounts := slotCounts[steps[i].bind.v := AllocSlots(steps[i].bind.rhs).value];
      }
    }
    assert steps[..|steps|] == steps;
    var available: seq<ReuseToken> := [];
    result := m;
    for k := 0 to |steps|
      invariant Linear(steps, Greedy(steps, k), k)
      invariant available == TokensOf(steps, Greedy(steps, k).available)
      invariant result == Recorded(steps, m, k)
    {
      hide Linear, ScanStep, DropSize, AllocSize, TokensOf;
      StepLinear(steps, Greedy(steps, k), k);
      GreedyTurn(steps, m, k);
      Sources(steps, k);
      match steps[k]
      case Rc(Drop(v)) =>
        if v in slotCounts {
          DropTurn(steps, Greedy(steps, k), k);
          available := available + [ReuseToken(v, slotCounts[v])];
        }
      case Bind(bind) =>
        var needed := AllocSlots(bind.rhs);
        if needed.Some? {
          var pos := FirstOfSize(available, needed.value);
          BindTurn(steps, Greedy(steps, k), k, pos);
          if pos < |available| {
            var token := available[pos];
            available := Without(available, pos);
            result := result[bind.v := token];
          }
        }
      case Rc(Dup(_)) =>
    }
  }

  /** `available.iter().position(..)`. */
  method FirstOfSize(available: seq<ReuseToken>, size: nat) returns (p: nat)
    ensures p <= |available| && (p < |available| ==> available[p].slotCount == size)
    ensures forall q | 0 <= q < p :: available[q].slotCount != size
  {
    p := 0;
    while p < |available| && available[p].slotCount != size
      invariant p <= |available|
      invariant forall q | 0 <= q < p :: available[q].slotCount != size
    {
      p := p + 1;
    }
  }

  lemma NoSteps(steps: seq<RcStep>, m: ReuseMap)
    ensures SlotCounts(steps[..0]) == map[] && Recorded(steps, m, 0) == m && Greedy(steps, 0) == Pairing([], map[])
  {
  }

  lemma SlotCountsStep(steps: seq<RcStep>, i: nat)
    requires i < |steps|
    ensures SlotCounts(steps[..i + 1]) ==
            if steps[i].Bind? && AllocSlots(steps[i].bind.rhs).Some? then
              SlotCounts(steps[..i])[steps[i].bind.v := AllocSlots(steps[i].bind.rhs).value]
            else SlotCounts(steps[..i])
  {
    hide AllocSlots;
    assert steps[..i + 1][..i] == steps[..i];
  }

  lemma GreedyTurn(steps: seq<RcStep>, m: ReuseMap, k: nat)
    requires k < |steps|
    ensures Greedy(steps, k + 1) == ScanStep(steps, Greedy(steps, k), k)
    ensures var chosen := Greedy(steps, k + 1).chosen;
            Recorded(steps, m, k + 1) ==
            if k in chosen && steps[k].Bind? && DropSize(steps, chosen[k]).Some? then
              Recorded(steps, m, k)[steps[k].bind.v := TokenOf(steps, chosen[k])]
            else Recorded(steps, m, k)
  {
    hide ScanStep, DropSize;
  }

  lemma Sources(steps: seq<RcStep>, k: nat)
    requires k < |steps|
    ensures AllocSize(steps, k) == if steps[k].Bind? then AllocSlots(steps[k].bind.rhs) else None
    ensures DropSize(steps, k) ==
            if steps[k].Rc? && steps[k].op.Drop? && steps[k].op.v in SlotCounts(steps)
            then Some(SlotCounts(steps)[steps[k].op.v]) else None
    ensures AllocSize(steps, k).None? && DropSize(steps, k).None? && Linear(steps, Greedy(steps, k), k) ==>
              ScanStep(steps, Greedy(steps, k), k) == Greedy(steps, k) && k !in Greedy(steps, k).chosen
    ensures DropSize(steps, k).Some? && Linear(steps, Greedy(steps, k), k) ==>
              ScanStep(steps, Greedy(steps, k), k).chosen == Greedy(steps, k).chosen && k !in Greedy(steps, k).chosen
  {
    hide Greedy, SlotCounts, AllocSlots;
  }

  lemma DropTurn(steps: seq<RcStep>, g: Pairing, k: nat)
    requires k < |steps| && Linear(steps, g, k) && DropSize(steps, k).Some?
    ensures var next := ScanStep(steps, g, k);
            Linear(steps, next, k + 1) &&
              forall i | 0 <= i < |next.available| :: DropSize(steps, next.available[i]).Some?
    ensures forall i | 0 <= i < |g.available| :: DropSize(steps, g.available[i]).Some?
    ensures TokensOf(steps, ScanStep(steps, g, k).available) == TokensOf(steps, g.available) + [TokenOf(steps, k)]
  {
    hide DropSize, TokenOf;
    StepLinear(steps, g, k);
  }

  lemma BindTurn(steps: seq<RcStep>, g: Pairing, k: nat, pos: nat)
    requires k < |steps| && Linear(steps, g, k) && DropSize(steps, k).None? && AllocSize(steps, k).Some?
    requires forall i | 0 <= i < |g.available| :: DropSize(steps, g.available[i]).Some?
    requires pos <= |g.available|
    requires pos < |g.available| ==> DropSize(steps, g.available[pos]) == AllocSize(steps, k)
    requires forall q | 0 <= q < pos :: DropSize(steps, g.available[q]) != AllocSize(steps, k)
    ensures var next := ScanStep(steps, g, k);
            if pos < |g.available| then
              && k in next.chosen && DropSize(steps, next.chosen[k]).Some?
              && TokenOf(steps, next.chosen[k]) == TokenOf(steps, g.available[pos])
              && (forall i | 0 <= i < |next.available| :: DropSize(steps, next.available[i]).Some?)
              && TokensOf(steps, next.available) == Without(TokensOf(steps, g.available), pos)
            else next == g && k !in g.chosen
  {
    hide DropSize, AllocSize, TokenOf;
  }

  /** No variable is bound by two steps. */
  predicate SingleSteps(steps: seq<RcStep>) {
    forall i, j | 0 <= i < j < |steps| && steps[i].Bind? && steps[j].Bind? :: steps[i].bind.v != steps[j].bind.v
  }

  /** `result` holds a token for every served allocation, and otherwise only entries of `m`. */
  ghost predicate Records(steps: seq<RcStep>, chosen: map<nat, nat>, m: ReuseMap, result: ReuseMap) {
    && (forall a <- chosen ::
          && a < |steps| && steps[a].Bind? && DropSize(steps, chosen[a]).Some?
          && steps[a].bind.v in result && result[steps[a].bind.v] == TokenOf(steps, chosen[a]))
    && (forall v <- result ::
          v in m || exists a :: a in chosen && a < |steps| && steps[a].Bind? && steps[a].bind.v == v)
  }

  /** In a single-assignment block the map records every served allocation and nothing else. */
  lemma {:induction false} RecordedAll(steps: seq<RcStep>, m: ReuseMap, k: nat)
    requires k <= |steps| && SingleSteps(steps)
    ensures Records(steps, Greedy(steps, k).chosen, m, Recorded(steps, m, k))
  {
    hide ScanStep, DropSize, TokenOf, Records, Linear;
    if k == 0 {
      RecordsNothing(steps, m);
    } else {
      RecordedAll(steps, m, k - 1);
      GreedyLinear(steps, k - 1);
      GreedyLinear(steps, k);
      ChosenBinds(steps, k);
      var g, next := Greedy(steps, k - 1).chosen, Greedy(steps, k).chosen;
      ChosenGrows(steps, Greedy(steps, k - 1), k - 1);
      ChosenBinds(steps, k - 1);
      if next != g {
        RecordsOne(steps, g, m, Recorded(steps, m, k - 1), k - 1, next[k - 1]);
      }
    }
  }

  lemma RecordsNothing(steps: seq<RcStep>, m: ReuseMap)
    ensures Records(steps, map[], m, m)
  {
  }

  lemma RecordsOne(steps: seq<RcStep>, chosen: map<nat, nat>, m: ReuseMap, result: ReuseMap, k: nat, d: nat)
    requires SingleSteps(steps) && Records(steps, chosen, m, result)
    requires k < |steps| && steps[k].Bind? && DropSize(steps, d).Some? && forall a <- chosen :: a < k
    ensures Records(steps, chosen[k := d], m, result[steps[k].bind.v := TokenOf(steps, d)])
  {
    hide DropSize, TokenOf;
    var more := chosen[k := d];
    assert k in more;
    assert forall a <- chosen :: a in more;
  }

  lemma ChosenBinds(steps: seq<RcStep>, k: nat)
    requires k <= |steps| && Linear(steps, Greedy(steps, k), k)
    ensures forall a <- Greedy(steps, k).chosen ::
              a < k && steps[a].Bind? && DropSize(steps, Greedy(steps, k).chosen[a]).Some?
  {
    hide Greedy, DropSize;
  }

  lemma ChosenGrows(steps: seq<RcStep>, g: Pairing, k: nat)
    ensures var next := ScanStep(steps, g, k);
            next.chosen == g.chosen || (k in next.chosen && next.chosen == g.chosen[k := next.chosen[k]])
  {
    hide DropSize, AllocSize;
  }

  method ReusePassRun(m: RcModule) returns (result: ReuseMap)
    ensures result == ReuseAll(m.funcs)
  {
    result := map[];
    for i := 0 to |m.funcs|
      invariant result == ReuseAll(m.funcs[..i])
    {
      assert m.funcs[..i + 1][..i] == m.funcs[..i];
      result := AnalyzeBlockForReuse(m.funcs[i].body, result);
    }
    assert m.funcs[..|m.funcs|] == m.funcs;
  }

  /** The map of a whole module: one function after the other. */
  function ReuseAll(funcs: seq<RcFunc>): ReuseMap {
    if funcs == [] then map[]
    else
      var steps := funcs[|funcs| - 1].body.steps;
      Recorded(steps, ReuseAll(funcs[..|funcs| - 1]), |steps|)
  }
}
