/**
 What the audit tables guarantee over whole histories: rows are unique and permanent, so no call moves its
 money twice, and credit is always explained by a grant when key namespaces are disjoint.
 */
module AuditTrail {
  import opened Wrappers
  import opened Ledger
  import opened Calls

  // ---- rows are unique and permanent ----

  ghost predicate Unique(t: Tables) {
    && (forall i, j :: 0 <= i < j < |t.events| ==> !EventsClash(t.events[i], t.events[j]))
    && (forall i, j :: 0 <= i < j < |t.grants| ==> !GrantsClash(t.grants[i], t.grants[j]))
    && (forall i, j :: 0 <= i < j < |t.adjustments| ==> !AdjustmentsClash(t.adjustments[i], t.adjustments[j]))
  }

  ghost predicate Extends(t: Tables, t': Tables) {
    t.events <= t'.events && t.grants <= t'.grants && t.adjustments <= t'.adjustments
  }

  lemma StatementKeepsRows(t: Tables, call: Call)
    ensures Extends(t, Advance(t, call).tables)
    ensures Unique(t) ==> Unique(Advance(t, call).tables)
  {
    var t' := Advance(t, call).tables;
    match call
    case UsageInsert(e) =>
      if !HasEvent(t.events, e) {
        forall r | r in t.events ensures !EventsClash(r, Stored(e)) { assert !EventsClash(r, e); }
      }
    case CreateAccount(g) => if !CreateRefused(t, g) { assert forall r :: r in t.grants ==> !GrantsClash(r, g); }
    case GrantInsert(g) => if !HasGrant(t.grants, g) { assert forall r :: r in t.grants ==> !GrantsClash(r, g); }
    case AdjustInsert(r) =>
      if !HasAdjustment(t.adjustments, r) { assert forall x :: x in t.adjustments ==> !AdjustmentsClash(x, r); }
    case AdjustMoney(r) =>
      var g := TrueUpGrant(r);
      if !HasGrant(t.grants, g) { assert forall x :: x in t.grants ==> !GrantsClash(x, g); }
    case _ =>
  }

  lemma {:induction false} RowsAreUniqueAndPermanent(s: System, actions: seq<Action>)
    ensures Extends(s.tables, Run(s, actions).tables)
    ensures Unique(s.tables) ==> Unique(Run(s, actions).tables)
    decreases |actions|
  {
    if actions != [] {
      if actions[0].Exec? && actions[0].slot < |s.calls| {
        StatementKeepsRows(s.tables, s.calls[actions[0].slot]);
      }
      RowsAreUniqueAndPermanent(Step(s, actions[0]), actions[1..]);
    }
  }

  /** The call's idempotency row is already in its audit table. */
  predicate Recorded(t: Tables, call: Call) {
    match call
    case CreateAccount(g) => HasGrant(t.grants, g)
    case GrantInsert(g) => HasGrant(t.grants, g)
    case UsageInsert(e) => HasEvent(t.events, e)
    case AdjustInsert(r) => HasAdjustment(t.adjustments, r)
    case _ => false
  }

  /** A repeated call is inert for ever after its row landed, whatever happened in between. */
  lemma ReplayMovesNothing(s: System, actions: seq<Action>, call: Call)
    requires Recorded(s.tables, call)
    ensures var t := Run(s, actions).tables; Advance(t, call) == Advanced(t, Done, None, None)
  {
    RowsAreUniqueAndPermanent(s, actions);
  }

  /** The first statement of a call that gets past the gate leaves its row behind. */
  lemma GateCloses(t: Tables, call: Call)
    requires Initial(call) && Advance(t, call).tables != t
    ensures Recorded(Advance(t, call).tables, call) && !Recorded(t, call)
  {
    var t' := Advance(t, call).tables;
    match call
    case CreateAccount(g) => assert t'.grants[|t.grants|] == g && GrantsClash(g, g);
    case GrantInsert(g) => assert t'.grants[|t.grants|] == g && GrantsClash(g, g);
    case UsageInsert(e) => assert t'.events[|t.events|] == Stored(e) && EventsClash(Stored(e), e);
    case AdjustInsert(r) => assert t'.adjustments[|t.adjustments|] == r && AdjustmentsClash(r, r);
  }

  // ---- credit is explained by grants when the key namespaces are disjoint ----

  const TRUE_UP_PREFIX := "aig:"

  /** Operator keys never use the true-up namespace, and a minted row id belongs to one key only. */
  predicate Namespaced(call: Call, keyOf: string -> string) {
    match call
    case CreateAccount(g) => !StartsWith(g.key, TRUE_UP_PREFIX) && g.key == keyOf(g.id)
    case GrantInsert(g) => !StartsWith(g.key, TRUE_UP_PREFIX) && g.key == keyOf(g.id)
    case GrantUpdate(g) => true
    case AdjustInsert(r) => StartsWith(r.key, TRUE_UP_PREFIX) && r.key == keyOf(r.id)
    case AdjustMoney(r) => StartsWith(r.key, TRUE_UP_PREFIX) && r.key == keyOf(r.id)
    case _ => true
  }

  predicate NamespacedActions(actions: seq<Action>, keyOf: string -> string) {
    forall a :: a in actions && a.Start? ==> Namespaced(a.call, keyOf)
  }

  ghost predicate HasTrueUp(t: Tables, key: string) {
    exists r :: r in t.adjustments && r.key == key
  }

  ghost predicate Granted(t: Tables, key: string) {
    exists g :: g in t.grants && g.key == key
  }

  ghost predicate Backed(s: System, keyOf: string -> string) {
    && s.unbacked == []
    && (forall i :: 0 <= i < |s.calls| ==> Namespaced(s.calls[i], keyOf))
    && (forall g :: g in s.tables.grants ==> g.key == keyOf(g.id))
    && (forall g :: g in s.tables.grants && StartsWith(g.key, TRUE_UP_PREFIX) ==> HasTrueUp(s.tables, g.key))
    && (forall i :: 0 <= i < |s.calls| && s.calls[i].AdjustMoney? ==>
          HasTrueUp(s.tables, s.calls[i].row.key) && !Granted(s.tables, s.calls[i].row.key))
    && (forall i, j :: 0 <= i < j < |s.calls| && s.calls[i].AdjustMoney? && s.calls[j].AdjustMoney? ==>
          s.calls[i].row.key != s.calls[j].row.key)
  }

  lemma TrueUpFindsNoGrant(s: System, i: nat, keyOf: string -> string)
    requires Backed(s, keyOf) && i < |s.calls| && s.calls[i].AdjustMoney?
    ensures !HasGrant(s.tables.grants, TrueUpGrant(s.calls[i].row))
  {
    var r := s.calls[i].row;
    forall g | g in s.tables.grants ensures !GrantsClash(g, TrueUpGrant(r)) {
      assert Granted(s.tables, g.key);
    }
  }

  lemma BatchKeepsBacked(s: System, i: nat, keyOf: string -> string)
    requires Backed(s, keyOf) && i < |s.calls| && s.calls[i].AdjustMoney?
    ensures Backed(Step(s, Exec(i)), keyOf)
  {
    var r := s.calls[i].row;
    var s' := Step(s, Exec(i));
    TrueUpFindsNoGrant(s, i, keyOf);
    assert s'.tables.adjustments == s.tables.adjustments;
    assert forall key :: HasTrueUp(s.tables, key) ==> HasTrueUp(s'.tables, key);
    forall j | 0 <= j < |s'.calls| && s'.calls[j].AdjustMoney?
      ensures HasTrueUp(s'.tables, s'.calls[j].row.key) && !Granted(s'.tables, s'.calls[j].row.key)
    {
      assert s.calls[j] == s'.calls[j] && j != i;
      assert s.calls[j].row.key != r.key;
    }
  }

  lemma AdjustInsertKeepsBacked(s: System, i: nat, keyOf: string -> string)
    requires Backed(s, keyOf) && i < |s.calls| && s.calls[i].AdjustInsert?
    requires !HasAdjustment(s.tables.adjustments, s.calls[i].row)
    ensures Backed(Step(s, Exec(i)), keyOf)
  {
    var s' := Step(s, Exec(i));
    var r := s.calls[i].row;
    assert forall key :: HasTrueUp(s.tables, key) ==> HasTrueUp(s'.tables, key);
    assert s'.tables.adjustments[|s.tables.adjustments|] == r;
    assert !HasTrueUp(s.tables, r.key) by {
      assert forall x :: x in s.tables.adjustments ==> !AdjustmentsClash(x, r);
    }
    assert !Granted(s.tables, r.key);
    assert s'.tables.grants == s.tables.grants;
  }

  lemma SwapKeepsBacked(s: System, i: nat, t: Tables, call: Call, lost: seq<Loss>, keyOf: string -> string)
    requires Backed(s, keyOf) && i < |s.calls|
    requires t.adjustments == s.tables.adjustments
    requires t.grants == s.tables.grants || exists g ::
      t.grants == s.tables.grants + [g] && g.key == keyOf(g.id) && !StartsWith(g.key, TRUE_UP_PREFIX)
    requires Namespaced(call, keyOf) && !call.AdjustMoney?
    ensures Backed(System(t, s.calls[i := call], lost, []), keyOf)
  {
    assert forall key :: HasTrueUp(s.tables, key) ==> HasTrueUp(t, key);
    assert forall key :: StartsWith(key, TRUE_UP_PREFIX) && Granted(t, key) ==> Granted(s.tables, key);
  }

  lemma OtherKeepsBacked(s: System, i: nat, keyOf: string -> string)
    requires Backed(s, keyOf) && i < |s.calls| && !s.calls[i].AdjustMoney?
    requires s.calls[i].AdjustInsert? ==> HasAdjustment(s.tables.adjustments, s.calls[i].row)
    ensures Backed(Step(s, Exec(i)), keyOf)
  {
    var n := Advance(s.tables, s.calls[i]);
    var g := if s.calls[i].GrantInsert? then s.calls[i].grant
             else if s.calls[i].CreateAccount? then s.calls[i].opening else Grant("", "", 0, "");
    assert n.tables.grants == s.tables.grants || n.tables.grants == s.tables.grants + [g];
    SwapKeepsBacked(s, i, n.tables, n.call, s.lost + Listed(n.missed), keyOf);
  }

  lemma StepKeepsBacked(s: System, a: Action, keyOf: string -> string)
    requires Backed(s, keyOf) && (a.Start? ==> Namespaced(a.call, keyOf))
    ensures Backed(Step(s, a), keyOf)
  {
    match a
    case Start(_) =>
    case Crash(_) =>
    case Exec(i) =>
      if i < |s.calls| {
        match s.calls[i]
        case AdjustMoney(_) => BatchKeepsBacked(s, i, keyOf);
        case AdjustInsert(r) =>
          if HasAdjustment(s.tables.adjustments, r) { OtherKeepsBacked(s, i, keyOf); }
          else { AdjustInsertKeepsBacked(s, i, keyOf); }
        case _ => OtherKeepsBacked(s, i, keyOf);
      }
  }

  /** With disjoint namespaces no true-up ever advances credit that no grant row explains. */
  lemma {:induction false} CreditIsAlwaysBacked(s: System, actions: seq<Action>, keyOf: string -> string)
    requires Backed(s, keyOf) && NamespacedActions(actions, keyOf)
    ensures Backed(Run(s, actions), keyOf)
    decreases |actions|
  {
    if actions != [] {
      StepKeepsBacked(s, actions[0], keyOf);
      CreditIsAlwaysBacked(Step(s, actions[0]), actions[1..], keyOf);
    }
  }

  /** Without the discipline the law holds at a true-up exactly when no grant row clashes with it. */
  lemma CreditLawBreaksExactlyOnClash(t: Tables, r: Adjustment)
    requires r.direction.Credit? && r.applied > 0 && r.accountId in t.accounts
    ensures var c := CreditCol(r.accountId); var t' := MoneyBatch(t, r);
      Unexplained(t', c) == Unexplained(t, c) <==> !HasGrant(t.grants, TrueUpGrant(r))
  {
    CreditTrueUpConserves(t, r, CreditCol(r.accountId));
  }

  ghost function Unexplained(t: Tables, c: Column): int { Value(t, c) - Audit(t, c) }

  /** An operator's top-up, run alone, leaves credit explained and its key taken. */
  lemma TopUpIsExplained(t: Tables, g: Grant)
    requires !HasGrant(t.grants, g) && g.accountId in t.accounts
    ensures var t' := Complete(t, GrantInsert(g));
      && t'.grants == t.grants + [g] && t'.adjustments == t.adjustments && t'.accounts.Keys == t.accounts.Keys
      && Unexplained(t', CreditCol(g.accountId)) == Unexplained(t, CreditCol(g.accountId))
  {
    var c := CreditCol(g.accountId);
    var t1 := InsertGrant(t, g);
    GrantInsertConserves(t, g, c);
    UpdateCreditMoves(t1, g.accountId, g.microUsd, c);
    UpdatesKeepAudit(t1, g.accountId, "", g.microUsd, NO_USAGE, c);
    CompletedGrant(t, g);
  }

  lemma ClashingTrueUpIsUnexplained(t: Tables, r: Adjustment)
    requires r.direction.Credit? && r.accountId in t.accounts
    requires HasGrant(t.grants, TrueUpGrant(r)) && !HasAdjustment(t.adjustments, r)
    ensures Unexplained(Complete(t, AdjustInsert(r)), CreditCol(r.accountId))
         == Unexplained(t, CreditCol(r.accountId)) + r.applied
  {
    var c := CreditCol(r.accountId);
    var t1 := t.(adjustments := t.adjustments + [r]);
    AdjustmentAudited(t.adjustments, r, c);
    CreditTrueUpConserves(t1, r, c);
    CompletedAdjust(t, r);
  }

  /**
   An operator who tops up under a true-up's key leaves credit that no grant explains: from any tables,
   the top-up followed by the true-up widens the gap by the whole true-up.
   */
  lemma NamespaceCollisionInflatesCredit(t: Tables, topUp: Grant, r: Adjustment)
    requires r.direction.Credit? && topUp.key == r.key
    requires topUp.accountId == r.accountId && r.accountId in t.accounts
    requires !HasGrant(t.grants, topUp) && !HasAdjustment(t.adjustments, r)
    ensures Unexplained(InTurn(t, [GrantInsert(topUp), AdjustInsert(r)]), CreditCol(r.accountId))
         == Unexplained(t, CreditCol(r.accountId)) + r.applied
  {
    TopUpIsExplained(t, topUp);
    var t1 := Complete(t, GrantInsert(topUp));
    assert topUp == t1.grants[|t.grants|] && GrantsClash(topUp, TrueUpGrant(r));
    ClashingTrueUpIsUnexplained(t1, r);
    TwoInTurn(t, GrantInsert(topUp), AdjustInsert(r));
  }
}
