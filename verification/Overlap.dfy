/**
 An account's requests in flight at once (src/routes/chat.ts:178-278, src/store-d1.ts:311-338): gate,
 price and the two record statements of up to k requests in any interleaving, any of them dying on the way.
 How far the two pools can be overdrawn, to the micro-USD.

 The bounds come from an invariant over every interleaving. That they are attained is shown by building
 one: single micro-USD requests bring the account to the last position that still opens the gate, then k
 requests are let in together.
 */
module Overlap {
  import opened Wrappers
  import opened Balance
  import Arith

  /**
   A slot's request: gated and being served; priced against a fresh period read but not recorded; its
   period statement landed with the credit part still to come (src/store-d1.ts:311-338).
   */
  datatype Slot =
    | Idle
    | Serving
    | Priced(split: Split)
    | Owing(fromCredit: int)

  datatype Shared = Shared(position: Position, slots: seq<Slot>)

  datatype Move = Enter(slot: nat) | Price(slot: nat, charge: nat) | RecordPeriod(slot: nat) | RecordSpent(slot: nat) | Drop(slot: nat)

  function Apply(included: nat, credit: nat, s: Shared, m: Move): Shared {
    if m.slot >= |s.slots| then s
    else
      var i := m.slot;
      match m
      case Enter(_) =>
        if s.slots[i].Idle? && Gate(included, credit, s.position).Allow? then s.(slots := s.slots[i := Serving]) else s
      case Price(_, charge) =>
        if s.slots[i].Serving? then
          s.(slots := s.slots[i := Priced(AllocateCharge(Whole(charge), Whole(included), Whole(s.position.allowanceSpent)))])
        else s
      case RecordPeriod(_) =>
        if s.slots[i].Priced? then
          var split := s.slots[i].split;
          Shared(Position(s.position.allowanceSpent + split.fromAllowance, s.position.spent),
                 s.slots[i := Owing(split.fromCredit)])
        else s
      case RecordSpent(_) =>
        if s.slots[i].Owing? then
          Shared(Position(s.position.allowanceSpent, s.position.spent + s.slots[i].fromCredit), s.slots[i := Idle])
        else s
      case Drop(_) => s.(slots := s.slots[i := Idle])
  }

  function ApplyAll(included: nat, credit: nat, s: Shared, moves: seq<Move>): Shared
    decreases |moves|
  {
    if moves == [] then s else ApplyAll(included, credit, Apply(included, credit, s, moves[0]), moves[1..])
  }

  /** Allowance a slot has claimed but not yet recorded. */
  function Claimed(slot: Slot): int { if slot.Priced? then slot.split.fromAllowance else 0 }

  /** The most credit a slot may still take. */
  function Exposure(slot: Slot, cap: nat): int {
    match slot
    case Idle => 0
    case Serving => cap
    case Priced(split) => split.fromCredit
    case Owing(c) => c
  }

  function TotalClaimed(slots: seq<Slot>): int {
    if slots == [] then 0 else TotalClaimed(slots[..|slots| - 1]) + Claimed(slots[|slots| - 1])
  }

  function TotalExposure(slots: seq<Slot>, cap: nat): int {
    if slots == [] then 0 else TotalExposure(slots[..|slots| - 1], cap) + Exposure(slots[|slots| - 1], cap)
  }

  lemma {:induction false} SlotUpdate(slots: seq<Slot>, i: nat, x: Slot, cap: nat)
    requires i < |slots|
    ensures TotalClaimed(slots[i := x]) == TotalClaimed(slots) - Claimed(slots[i]) + Claimed(x)
    ensures TotalExposure(slots[i := x], cap) == TotalExposure(slots, cap) - Exposure(slots[i], cap) + Exposure(x, cap)
  {
    var n := |slots| - 1;
    if i == n {
      assert slots[i := x][..n] == slots[..n];
    } else {
      assert slots[i := x][..n] == slots[..n][i := x];
      SlotUpdate(slots[..n], i, x, cap);
    }
  }

  ghost predicate SlotFits(included: nat, cap: nat, slot: Slot) {
    match slot
    case Idle => true
    case Serving => true
    case Priced(split) =>
      0 <= split.fromAllowance <= Min(cap, included) && 0 <= split.fromCredit && split.fromAllowance + split.fromCredit <= cap
    case Owing(c) => 0 <= c <= cap
  }

  ghost predicate SlotsFit(included: nat, cap: nat, slots: seq<Slot>) {
    forall i :: 0 <= i < |slots| ==> SlotFits(included, cap, slots[i])
  }

  lemma {:induction false} TotalsFit(included: nat, cap: nat, slots: seq<Slot>)
    requires SlotsFit(included, cap, slots)
    ensures 0 <= TotalClaimed(slots) <= |slots| * Min(cap, included)
    ensures 0 <= TotalExposure(slots, cap) <= |slots| * cap
  {
    if slots != [] {
      var n := |slots| - 1;
      TotalsFit(included, cap, slots[..n]);
      assert SlotFits(included, cap, slots[n]);
      Arith.OneMore(n, Min(cap, included));
      Arith.OneMore(n, cap);
    }
  }

  /** All slots but one claim and are exposed to what the k - 1 others can be. */
  lemma OthersFit(included: nat, cap: nat, slots: seq<Slot>, i: nat)
    requires SlotsFit(included, cap, slots) && i < |slots|
    ensures 0 <= TotalClaimed(slots) - Claimed(slots[i]) <= (|slots| - 1) * Min(cap, included)
    ensures 0 <= TotalExposure(slots, cap) - Exposure(slots[i], cap) <= (|slots| - 1) * cap
  {
    var rest := slots[..i] + slots[i + 1..];
    RemoveSlot(slots, i, cap);
    TotalsFit(included, cap, rest);
  }

  lemma {:induction false} RemoveSlot(slots: seq<Slot>, i: nat, cap: nat)
    requires i < |slots|
    ensures TotalClaimed(slots[..i] + slots[i + 1..]) == TotalClaimed(slots) - Claimed(slots[i])
    ensures TotalExposure(slots[..i] + slots[i + 1..], cap) == TotalExposure(slots, cap) - Exposure(slots[i], cap)
  {
    var n := |slots| - 1;
    if i == n {
      assert slots[..i] + slots[i + 1..] == slots[..n];
    } else {
      var rest := slots[..i] + slots[i + 1..];
      assert rest[..n - 1] == slots[..n][..i] + slots[..n][i + 1..] && rest[n - 1] == slots[n];
      RemoveSlot(slots[..n], i, cap);
    }
  }

  // ---- the bound ----

  /** The most allowance k requests of at most `cap` can burn. */
  function MaxAllowance(included: nat, cap: nat, k: nat): int {
    if k == 0 || cap == 0 then 0 else included + (k - 1) * Min(cap, included)
  }

  /** The most that can have been spent from credit, `start` of it before the period. */
  function MaxSpent(included: nat, credit: nat, start: nat, cap: nat, k: nat): int {
    if k == 0 || cap == 0 || (included == 0 && credit <= start) then start
    else Max(start, credit) - 1 + k * cap
  }

  /**
   While allowance remains, no credit has been taken and no recorded row still owes any; the request that
   exhausts it pays at least one micro-USD out of it.
   */
  ghost predicate Overlapping(included: nat, credit: nat, start: nat, cap: nat, s: Shared) {
    && SlotsFit(included, cap, s.slots)
    && 0 <= s.position.allowanceSpent && start <= s.position.spent
    && s.position.allowanceSpent + TotalClaimed(s.slots) <= MaxAllowance(included, cap, |s.slots|)
    && (s.position.allowanceSpent < included ==>
          s.position.spent == start && forall i :: 0 <= i < |s.slots| && s.slots[i].Owing? ==> s.slots[i].fromCredit == 0)
    && (s.position.allowanceSpent >= included ==>
          s.position.spent + TotalExposure(s.slots, cap) <= MaxSpent(included, credit, start, cap, |s.slots|))
    && (forall i :: 0 <= i < |s.slots| && s.slots[i].Priced? && s.slots[i].split.fromCredit > 0 ==>
          s.position.allowanceSpent + s.slots[i].split.fromAllowance >= included)
  }

  lemma EnterKeeps(included: nat, credit: nat, start: nat, cap: nat, s: Shared, i: nat)
    requires Overlapping(included, credit, start, cap, s) && i < |s.slots| && s.slots[i].Idle?
    requires Gate(included, credit, s.position).Allow?
    ensures Overlapping(included, credit, start, cap, s.(slots := s.slots[i := Serving]))
  {
    SlotUpdate(s.slots, i, Serving, cap);
    OthersFit(included, cap, s.slots, i);
    Arith.OneMore(|s.slots| - 1, cap);
  }

  lemma PriceKeeps(included: nat, credit: nat, start: nat, cap: nat, s: Shared, i: nat, charge: nat)
    requires Overlapping(included, credit, start, cap, s) && i < |s.slots| && s.slots[i].Serving? && charge <= cap
    ensures Overlapping(included, credit, start, cap, Apply(included, credit, s, Price(i, charge)))
  {
    var split := AllocateCharge(Whole(charge), Whole(included), Whole(s.position.allowanceSpent));
    SplitIsExact(charge, included, s.position.allowanceSpent);
    SlotUpdate(s.slots, i, Priced(split), cap);
    OthersFit(included, cap, s.slots, i);
  }

  lemma RecordPeriodKeeps(included: nat, credit: nat, start: nat, cap: nat, s: Shared, i: nat)
    requires Overlapping(included, credit, start, cap, s) && i < |s.slots| && s.slots[i].Priced?
    ensures Overlapping(included, credit, start, cap, Apply(included, credit, s, RecordPeriod(i)))
  {
    assert SlotFits(included, cap, s.slots[i]);
    SlotUpdate(s.slots, i, Owing(s.slots[i].split.fromCredit), cap);
    OthersFit(included, cap, s.slots, i);
    Arith.OneMore(|s.slots| - 1, cap);
  }

  lemma FreeKeeps(included: nat, credit: nat, start: nat, cap: nat, s: Shared, m: Move)
    requires Overlapping(included, credit, start, cap, s) && m.slot < |s.slots|
    requires m.RecordSpent? || m.Drop?
    ensures Overlapping(included, credit, start, cap, Apply(included, credit, s, m))
  {
    assert SlotFits(included, cap, s.slots[m.slot]);
    SlotUpdate(s.slots, m.slot, Idle, cap);
  }

  predicate Capped(moves: seq<Move>, cap: nat) { forall m :: m in moves && m.Price? ==> m.charge <= cap }

  lemma {:induction false} OverlapInvariant(included: nat, credit: nat, start: nat, cap: nat, s: Shared, moves: seq<Move>)
    requires Overlapping(included, credit, start, cap, s) && Capped(moves, cap)
    ensures Overlapping(included, credit, start, cap, ApplyAll(included, credit, s, moves))
    ensures |ApplyAll(included, credit, s, moves).slots| == |s.slots|
    decreases |moves|
  {
    hide Overlapping, AllocateCharge, Gate;
    if moves != [] {
      var m := moves[0];
      if m.slot < |s.slots| {
        match m
        case Enter(i) =>
          if s.slots[i].Idle? && Gate(included, credit, s.position).Allow? { EnterKeeps(included, credit, start, cap, s, i); }
        case Price(i, charge) => if s.slots[i].Serving? { PriceKeeps(included, credit, start, cap, s, i, charge); }
        case RecordPeriod(i) => if s.slots[i].Priced? { RecordPeriodKeeps(included, credit, start, cap, s, i); }
        case _ => FreeKeeps(included, credit, start, cap, s, m);
      }
      OverlapInvariant(included, credit, start, cap, Apply(included, credit, s, m), moves[1..]);
    }
  }

  /** A period in which nothing has happened yet, with room for k requests at once. */
  function Fresh(start: nat, k: nat): Shared { Shared(Position(0, start), Copies(Idle, k)) }

  /** Whatever interleaves: the two pools stay within the two maxima. */
  lemma OverlapBound(included: nat, credit: nat, start: nat, cap: nat, k: nat, moves: seq<Move>)
    requires Capped(moves, cap)
    ensures var p := ApplyAll(included, credit, Fresh(start, k), moves).position;
      p.allowanceSpent <= MaxAllowance(included, cap, k) && p.spent <= MaxSpent(included, credit, start, cap, k)
  {
    AllIdle(k, cap);
    if k > 0 {
      Arith.OneMore(k - 1, cap);
      Arith.OneMore(k - 1, Min(cap, included));
    }
    OverlapInvariant(included, credit, start, cap, Fresh(start, k), moves);
    TotalsFit(included, cap, ApplyAll(included, credit, Fresh(start, k), moves).slots);
  }

  lemma {:induction false} AllIdle(k: nat, cap: nat)
    ensures TotalClaimed(Copies(Idle, k)) == 0 && TotalExposure(Copies(Idle, k), cap) == 0
  {
    if k > 0 {
      assert Copies(Idle, k)[..k - 1] == Copies(Idle, k - 1);
      AllIdle(k - 1, cap);
    }
  }

  // ---- both maxima are attained ----

  lemma {:induction false} ApplyConcat(included: nat, credit: nat, s: Shared, a: seq<Move>, b: seq<Move>)
    ensures ApplyAll(included, credit, s, a + b) == ApplyAll(included, credit, ApplyAll(included, credit, s, a), b)
    decreases |a|
  {
    hide Apply;
    if a == [] {
      assert a + b == b;
    } else {
      assert (a + b)[1..] == a[1..] + b;
      ApplyConcat(included, credit, Apply(included, credit, s, a[0]), a[1..], b);
    }
  }

  /** n requests of one micro-USD on the first slot, one after another. */
  function Units(n: nat): (moves: seq<Move>)
    ensures Capped(moves, 1)
  {
    if n == 0 then [] else [Enter(0), Price(0, 1), RecordPeriod(0), RecordSpent(0)] + Units(n - 1)
  }

  lemma OneUnit(included: nat, credit: nat, p: Position, slots: seq<Slot>)
    requires |slots| > 0 && slots[0] == Idle && p.allowanceSpent >= 0 && p.spent >= 0
    requires p.allowanceSpent < included || p.spent < credit
    ensures ApplyAll(included, credit, Shared(p, slots), Units(1))
         == Shared(if p.allowanceSpent < included then Position(p.allowanceSpent + 1, p.spent)
                   else Position(p.allowanceSpent, p.spent + 1), slots)
  {
    var s := Shared(p, slots);
    var moves := [Enter(0), Price(0, 1), RecordPeriod(0), RecordSpent(0)];
    assert Units(1) == moves by { assert Units(0) == []; }
    assert moves[1..][1..][1..][1..] == [];
    var a := Apply(included, credit, s, moves[0]);
    var b := Apply(included, credit, a, moves[1]);
    var c := Apply(included, credit, b, moves[2]);
    var d := Apply(included, credit, c, moves[3]);
    assert d.slots == slots;
    assert ApplyAll(included, credit, c, moves[1..][1..][1..]) == ApplyAll(included, credit, d, []);
    assert ApplyAll(included, credit, b, moves[1..][1..]) == d;
    assert ApplyAll(included, credit, a, moves[1..]) == d;
  }

  lemma {:induction false} BurnAllowance(included: nat, credit: nat, p: Position, slots: seq<Slot>, n: nat)
    requires |slots| > 0 && slots[0] == Idle && p.spent >= 0 && 0 <= p.allowanceSpent <= p.allowanceSpent + n <= included
    ensures ApplyAll(included, credit, Shared(p, slots), Units(n)) == Shared(Position(p.allowanceSpent + n, p.spent), slots)
    decreases n
  {
    hide Apply;
    if n > 0 {
      OneUnit(included, credit, p, slots);
      UnitsSplit(n);
      ApplyConcat(included, credit, Shared(p, slots), Units(1), Units(n - 1));
      BurnAllowance(included, credit, Position(p.allowanceSpent + 1, p.spent), slots, n - 1);
    }
  }

  lemma {:induction false} BurnCredit(included: nat, credit: nat, p: Position, slots: seq<Slot>, n: nat)
    requires |slots| > 0 && slots[0] == Idle && p.allowanceSpent >= included && 0 <= p.spent <= p.spent + n <= credit
    ensures ApplyAll(included, credit, Shared(p, slots), Units(n)) == Shared(Position(p.allowanceSpent, p.spent + n), slots)
    decreases n
  {
    hide Apply;
    if n > 0 {
      OneUnit(included, credit, p, slots);
      UnitsSplit(n);
      ApplyConcat(included, credit, Shared(p, slots), Units(1), Units(n - 1));
      BurnCredit(included, credit, Position(p.allowanceSpent, p.spent + 1), slots, n - 1);
    }
  }

  lemma UnitsSplit(n: nat)
    requires n > 0
    ensures Units(n) == Units(1) + Units(n - 1)
  {
    assert Units(1) == [Enter(0), Price(0, 1), RecordPeriod(0), RecordSpent(0)] + Units(0);
  }

  /** The first n of k slots are at `x`, the rest at `y`. */
  function Front(k: nat, n: nat, x: Slot, y: Slot): (slots: seq<Slot>)
    requires n <= k
    ensures |slots| == k && forall i :: 0 <= i < k ==> slots[i] == if i < n then x else y
  {
    Copies(x, n) + Copies(y, k - n)
  }

  lemma FrontMoves(k: nat, n: nat, x: Slot, y: Slot)
    requires n < k
    ensures Front(k, n, x, y)[n := x] == Front(k, n + 1, x, y)
    ensures Front(k, n + 1, x, y)[n := y] == Front(k, n, x, y)
  {
  }

  datatype Wave = Entering | Pricing(charge: nat) | Recording

  function MoveOf(w: Wave, slot: nat): Move {
    match w
    case Entering => Enter(slot)
    case Pricing(charge) => Price(slot, charge)
    case Recording => RecordPeriod(slot)
  }

  /** One move on each of the first n slots. */
  function All(w: Wave, n: nat): (moves: seq<Move>)
    ensures forall m :: m in moves && m.Price? ==> w.Pricing? && m.charge == w.charge
  {
    if n == 0 then [] else All(w, n - 1) + [MoveOf(w, n - 1)]
  }

  lemma OneMove(included: nat, credit: nat, s: Shared, m: Move)
    ensures ApplyAll(included, credit, s, [m]) == Apply(included, credit, s, m)
  {
    assert ApplyAll(included, credit, Apply(included, credit, s, m), [m][1..]) == Apply(included, credit, s, m);
  }

  /** An open gate lets every idle slot in, and all priced before any is recorded are priced alike. */
  lemma {:induction false} WaveIsUniform(included: nat, credit: nat, p: Position, k: nat, n: nat, w: Wave, split: Split)
    requires n <= k && p.allowanceSpent >= 0 && p.spent >= 0 && !w.Recording?
    requires w.Entering? ==> Gate(included, credit, p).Allow?
    requires w.Pricing? ==> split == AllocateCharge(Whole(w.charge), Whole(included), Whole(p.allowanceSpent))
    ensures var from := if w.Entering? then Idle else Serving;
      var to := if w.Entering? then Serving else Priced(split);
      ApplyAll(included, credit, Shared(p, Front(k, 0, to, from)), All(w, n)) == Shared(p, Front(k, n, to, from))
  {
    if n > 0 {
      var from := if w.Entering? then Idle else Serving;
      var to := if w.Entering? then Serving else Priced(split);
      WaveIsUniform(included, credit, p, k, n - 1, w, split);
      ApplyConcat(included, credit, Shared(p, Front(k, 0, to, from)), All(w, n - 1), [MoveOf(w, n - 1)]);
      OneMove(included, credit, Shared(p, Front(k, n - 1, to, from)), MoveOf(w, n - 1));
      FrontMoves(k, n - 1, to, from);
    }
  }

  lemma {:induction false} RecordAll(included: nat, credit: nat, p: Position, k: nat, n: nat, split: Split)
    requires n <= k
    ensures ApplyAll(included, credit, Shared(p, Front(k, 0, Owing(split.fromCredit), Priced(split))), All(Recording, n))
         == Shared(Position(p.allowanceSpent + n * split.fromAllowance, p.spent), Front(k, n, Owing(split.fromCredit), Priced(split)))
  {
    hide Front, Apply;
    var x, y := Owing(split.fromCredit), Priced(split);
    var s := Shared(p, Front(k, 0, x, y));
    if n > 0 {
      RecordAll(included, credit, p, k, n - 1, split);
      ApplyConcat(included, credit, s, All(Recording, n - 1), [MoveOf(Recording, n - 1)]);
      var before := Position(p.allowanceSpent + (n - 1) * split.fromAllowance, p.spent);
      OneMove(included, credit, Shared(before, Front(k, n - 1, x, y)), MoveOf(Recording, n - 1));
      RecordOne(included, credit, before, k, n - 1, split);
      NextMultiple(n, split.fromAllowance);
    } else {
      NoMoves(included, credit, s);
    }
  }

  lemma NextMultiple(n: nat, x: int)
    requires n > 0
    ensures n * x == (n - 1) * x + x
  {
  }

  lemma RecordOne(included: nat, credit: nat, p: Position, k: nat, n: nat, split: Split)
    requires n < k
    ensures var x, y := Owing(split.fromCredit), Priced(split);
      Apply(included, credit, Shared(p, Front(k, n, x, y)), RecordPeriod(n))
      == Shared(Position(p.allowanceSpent + split.fromAllowance, p.spent), Front(k, n + 1, x, y))
  {
    FrontMoves(k, n, Owing(split.fromCredit), Priced(split));
  }

  /** Each of the first n slots, from the last: priced, recorded and paid before the next. */
  function Finish(n: nat, charge: nat): (moves: seq<Move>)
    ensures Capped(moves, charge)
  {
    if n == 0 then []
    else [Price(n - 1, charge), RecordPeriod(n - 1), RecordSpent(n - 1)] + Finish(n - 1, charge)
  }

  lemma FinishOne(included: nat, credit: nat, p: Position, k: nat, n: nat, charge: nat)
    requires 1 <= n <= k && p.allowanceSpent >= 0
    ensures ApplyAll(included, credit, Shared(p, Front(k, n, Serving, Idle)), Finish(n, charge))
         == ApplyAll(included, credit, Shared(Record(included, p, charge), Front(k, n - 1, Serving, Idle)), Finish(n - 1, charge))
  {
    var s := Shared(p, Front(k, n, Serving, Idle));
    var moves := [Price(n - 1, charge), RecordPeriod(n - 1), RecordSpent(n - 1)];
    ApplyConcat(included, credit, s, moves, Finish(n - 1, charge));
    var a := Apply(included, credit, s, moves[0]);
    var b := Apply(included, credit, a, moves[1]);
    var c := Apply(included, credit, b, moves[2]);
    FrontMoves(k, n - 1, Serving, Idle);
    assert c.slots == s.slots[n - 1 := Idle];
    assert moves[1..][1..][1..] == [];
    assert ApplyAll(included, credit, b, moves[1..][1..]) == ApplyAll(included, credit, c, []);
    assert ApplyAll(included, credit, a, moves[1..]) == c;
  }

  lemma {:induction false} FinishOnCredit(included: nat, credit: nat, p: Position, k: nat, n: nat, charge: nat)
    requires n <= k && p.allowanceSpent >= included
    ensures ApplyAll(included, credit, Shared(p, Front(k, n, Serving, Idle)), Finish(n, charge)).position
         == Position(p.allowanceSpent, p.spent + n * charge)
    decreases n
  {
    hide ApplyAll;
    if n > 0 {
      FinishOne(included, credit, p, k, n, charge);
      FinishOnCredit(included, credit, Record(included, p, charge), k, n - 1, charge);
      Arith.OneMore(n - 1, charge);
    } else {
      NoMoves(included, credit, Shared(p, Front(k, n, Serving, Idle)));
    }
  }

  lemma NoMoves(included: nat, credit: nat, s: Shared)
    ensures ApplyAll(included, credit, s, []) == s
  {
  }

  /** From an open gate: all k slots enter. */
  lemma AllEnter(included: nat, credit: nat, p: Position, k: nat)
    requires p.allowanceSpent >= 0 && p.spent >= 0 && (p.allowanceSpent < included || p.spent < credit)
    ensures ApplyAll(included, credit, Shared(p, Copies(Idle, k)), All(Entering, k)) == Shared(p, Front(k, k, Serving, Idle))
  {
    assert Front(k, 0, Serving, Idle) == Copies(Idle, k);
    WaveIsUniform(included, credit, p, k, k, Entering, Split(0, 0));
  }

  /**
   For every plan, account, cap and k some interleaving spends as much credit as the bound allows: spend up
   to the last micro-USD that opens the gate one request at a time, then let k requests in together.
   */
  lemma SpentBoundIsTight(included: nat, credit: nat, start: nat, cap: nat, k: nat) returns (moves: seq<Move>)
    ensures Capped(moves, cap)
    ensures ApplyAll(included, credit, Fresh(start, k), moves).position.spent == MaxSpent(included, credit, start, cap, k)
  {
    hide ApplyAll, Units, All, Finish, Front;
    if k == 0 || cap == 0 || (included == 0 && credit <= start) {
      moves := [];
      NoMoves(included, credit, Fresh(start, k));
    } else {
      var idle := Copies(Idle, k);
      var burned := if start < credit then included else included - 1;
      var spent := if start < credit then credit - 1 - start else 0;
      var p := Position(burned, start + spent);
      BurnAllowance(included, credit, Position(0, start), idle, burned);
      if spent > 0 {
        BurnCredit(included, credit, Position(burned, start), idle, spent);
      } else {
        NoUnits();
        NoMoves(included, credit, Shared(p, idle));
      }
      AllEnter(included, credit, p, k);
      ApplyConcat(included, credit, Fresh(start, k), Units(burned), Units(spent));
      var prep := Units(burned) + Units(spent);
      ApplyConcat(included, credit, Fresh(start, k), prep, All(Entering, k));
      ApplyConcat(included, credit, Fresh(start, k), prep + All(Entering, k), Finish(k, cap));
      moves := prep + All(Entering, k) + Finish(k, cap);
      if start < credit {
        FinishOnCredit(included, credit, p, k, k, cap);
      } else {
        FinishOne(included, credit, p, k, k, cap);
        FinishOnCredit(included, credit, Record(included, p, cap), k, k - 1, cap);
        NextMultiple(k, cap);
      }
    }
  }

  lemma NoUnits()
    ensures Units(0) == []
  {
  }

  /** And some interleaving burns as much allowance: k requests priced before any of them is recorded. */
  lemma AllowanceBoundIsTight(included: nat, credit: nat, start: nat, cap: nat, k: nat) returns (moves: seq<Move>)
    ensures Capped(moves, cap)
    ensures ApplyAll(included, credit, Fresh(start, k), moves).position.allowanceSpent == MaxAllowance(included, cap, k)
  {
    hide ApplyAll, Units, All, Front;
    if k == 0 || cap == 0 || included == 0 {
      moves := [];
      NoMoves(included, credit, Fresh(start, k));
    } else {
      var step := Min(cap, included);
      var p := Position(included - step, start);
      var split := Split(step, cap - step);
      BurnAllowance(included, credit, Position(0, start), Copies(Idle, k), included - step);
      AllEnter(included, credit, p, k);
      FrontEnds(k, Serving, Idle, Priced(split));
      WaveIsUniform(included, credit, p, k, k, Pricing(cap), split);
      FrontEnds(k, Priced(split), Serving, Owing(cap - step));
      RecordAll(included, credit, p, k, k, split);
      var entered := Units(included - step) + All(Entering, k);
      ApplyConcat(included, credit, Fresh(start, k), Units(included - step), All(Entering, k));
      ApplyConcat(included, credit, Fresh(start, k), entered, All(Pricing(cap), k));
      ApplyConcat(included, credit, Fresh(start, k), entered + All(Pricing(cap), k), All(Recording, k));
      moves := entered + All(Pricing(cap), k) + All(Recording, k);
      NextMultiple(k, step);
    }
  }

  /** All slots alike: the end of one wave is the start of the next. */
  lemma FrontEnds(k: nat, x: Slot, y: Slot, z: Slot)
    ensures Front(k, k, x, y) == Front(k, 0, z, x)
  {
  }
}
