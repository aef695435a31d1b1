/**
 One upstream token per account (src/token-minter.ts:128-273): find, mint, store and revoke, with a
 failure possible at every external call. Encryption is an inverse pair that may fail to open.
 */
module Credential {
  import opened Wrappers

  /** How an external call ends: as asked, without effect, or done but reported as an error. */
  datatype Reply = Fine | Refused | LostReply

  predicate Took(r: Reply) { !r.Refused? }

  datatype Row = Row(tokenId: string, revoked: bool)

  /** The stored rows, and the tokens at Cloudflare: every name ever issued, and which are live. */
  datatype World = World(rows: map<string, Row>, names: map<string, string>, live: set<string>)

  const EMPTY := World(map[], map[], {})

  datatype Result = Ok(tokenId: string, minted: bool) | Unavailable | Threw

  /** What the outside does during one forAccount; `mintedId` is the identifier Cloudflare would issue. */
  datatype Script = Script(
    ringUsable: bool, readRow: Reply, opens: bool, count: Reply,
    find: Reply, found: string, sweep: Reply, mint: Reply, mintedId: string, put: Reply, undo: Reply)

  const NAME_PREFIX := "prism-cp-user-"

  function TokenName(account: string): string { NAME_PREFIX + account }

  lemma NamesAreDistinct(a: string, b: string)
    ensures TokenName(a) == TokenName(b) ==> a == b
  {
    assert TokenName(a)[|NAME_PREFIX|..] == a && TokenName(b)[|NAME_PREFIX|..] == b;
  }

  ghost function LiveRows(w: World): set<string> { set a | a in w.rows && !w.rows[a].revoked }

  predicate Named(w: World, token: string, account: string) {
    token in w.live && token in w.names && w.names[token] == TokenName(account)
  }

  function Kill(w: World, token: string): World { w.(live := w.live - {token}) }

  /** The sweep before a mint: one same-named token, if the census names one. */
  function Swept(w: World, account: string, s: Script): World {
    if s.find.Fine? && Named(w, s.found, account) && Took(s.sweep) then Kill(w, s.found) else w
  }

  function Minted(w: World, account: string, s: Script): World {
    w.(names := w.names[s.mintedId := TokenName(account)], live := w.live + {s.mintedId})
  }

  function Stored(w: World, account: string, token: string): World {
    w.(rows := w.rows[account := Row(token, false)])
  }

  /** The budget check counts live rows; a count that cannot be read throws. */
  ghost function Serve(w: World, budget: nat, account: string, s: Script): (World, Result) {
    if !s.ringUsable then (w, Unavailable)
    else if !s.readRow.Fine? then (w, Threw)
    else if account in w.rows && !w.rows[account].revoked then
      (w, if s.opens then Ok(w.rows[account].tokenId, false) else Unavailable)
    else if !s.count.Fine? then (w, Threw)
    else if |LiveRows(w)| >= budget then (w, Unavailable)
    else
      var swept := Swept(w, account, s);
      if s.mint.Refused? then (swept, Unavailable)
      else
        var minted := Minted(swept, account, s);
        if s.mint.LostReply? then (minted, Unavailable)
        else
          var stored := if Took(s.put) then Stored(minted, account, s.mintedId) else minted;
          if s.put.Fine? then (stored, Ok(s.mintedId, true))
          else (if Took(s.undo) then Kill(stored, s.mintedId) else stored, Unavailable)
  }

  datatype RevokeScript = RevokeScript(readRow: Reply, find: Reply, found: string, revoke: Reply, mark: Reply)

  datatype Revoked = Done | Nothing | Raised

  function Target(w: World, account: string, s: RevokeScript): Option<string> {
    if account in w.rows then Some(w.rows[account].tokenId)
    else if Named(w, s.found, account) then Some(s.found)
    else None
  }

  function Marked(w: World, account: string): World {
    if account in w.rows then w.(rows := w.rows[account := w.rows[account].(revoked := true)]) else w
  }

  function Revoke(w: World, account: string, s: RevokeScript): (World, Revoked) {
    if !s.readRow.Fine? then (w, Raised)
    else if account !in w.rows && !s.find.Fine? then (w, Raised)
    else
      var t := Target(w, account, s);
      if t.None? then (w, Nothing)
      else
        var dead := if Took(s.revoke) then Kill(w, t.value) else w;
        if !s.revoke.Fine? then (dead, Raised)
        else (if Took(s.mark) then Marked(dead, account) else dead, if s.mark.Fine? then Done else Raised)
  }

  class CfUserTokenProvider {
    const budget: nat
    var rows: map<string, Row>
    var names: map<string, string>
    var live: set<string>

    function Now(): World
      reads this
    {
      World(rows, names, live)
    }

    constructor (budget: nat)
      ensures this.budget == budget && Now() == EMPTY
    {
      this.budget := budget;
      rows, names, live := map[], map[], {};
    }

    method CountLive() returns (n: nat)
      ensures n == |LiveRows(Now())|
    {
      n := |set a | a in rows && !rows[a].revoked|;
    }

    method RevokeToken(token: string, reply: Reply)
      modifies this`live
      ensures Now() == (if Took(reply) then Kill(old(Now()), token) else old(Now()))
    {
      if Took(reply) { live := live - {token}; }
    }

    method ForAccount(account: string, s: Script) returns (r: Result)
      modifies this
      ensures (Now(), r) == Serve(old(Now()), budget, account, s)
    {
      if !s.ringUsable { return Unavailable; }
      if !s.readRow.Fine? { return Threw; }
      if account in rows && !rows[account].revoked {
        return if s.opens then Ok(rows[account].tokenId, false) else Unavailable;
      }
      if !s.count.Fine? { return Threw; }
      var liveCount := CountLive();
      if liveCount >= budget { return Unavailable; }
      if s.find.Fine? && Named(Now(), s.found, account) { RevokeToken(s.found, s.sweep); }
      if s.mint.Refused? { return Unavailable; }
      names, live := names[s.mintedId := TokenName(account)], live + {s.mintedId};
      if s.mint.LostReply? { return Unavailable; }
      if Took(s.put) { rows := rows[account := Row(s.mintedId, false)]; }
      if !s.put.Fine? {
        RevokeToken(s.mintedId, s.undo);
        return Unavailable;
      }
      r := Ok(s.mintedId, true);
    }

    method RevokeForAccount(account: string, s: RevokeScript) returns (r: Revoked)
      modifies this
      ensures (Now(), r) == Revoke(old(Now()), account, s)
    {
      if !s.readRow.Fine? { return Raised; }
      if account !in rows && !s.find.Fine? { return Raised; }
      var target := Target(Now(), account, s);
      if target.None? { return Nothing; }
      RevokeToken(target.value, s.revoke);
      if !s.revoke.Fine? { return Raised; }
      if Took(s.mark) && account in rows { rows := rows[account := rows[account].(revoked := true)]; }
      r := if s.mark.Fine? then Done else Raised;
    }
  }

  // ---- what every call keeps ----

  /** The store never says revoked of a live token, and every row names a token issued for its account. */
  ghost predicate Honest(w: World) {
    && (forall a :: a in w.rows && w.rows[a].revoked ==> w.rows[a].tokenId !in w.live)
    && (forall a :: a in w.rows ==> w.rows[a].tokenId in w.names && w.names[w.rows[a].tokenId] == TokenName(a))
    && w.live <= w.names.Keys
  }

  ghost predicate Recorded(w: World, token: string) {
    exists a :: a in w.rows && w.rows[a].tokenId == token
  }

  /** Cloudflare issues identifiers it never issued before. */
  predicate Issues(w: World, s: Script) { s.mintedId !in w.names }

  /** The call reached the mint. */
  ghost predicate Mints(w: World, budget: nat, account: string, s: Script) {
    && s.ringUsable && s.readRow.Fine? && !(account in w.rows && !w.rows[account].revoked)
    && s.count.Fine? && |LiveRows(w)| < budget
  }

  lemma KillKeepsHonest(w: World, token: string)
    requires Honest(w)
    ensures Honest(Kill(w, token))
  {
  }

  lemma MintKeepsHonest(w: World, account: string, s: Script)
    requires Honest(w) && Issues(w, s)
    ensures Honest(Minted(w, account, s)) && Honest(Stored(Minted(w, account, s), account, s.mintedId))
  {
  }

  lemma SweepKeepsIds(w: World, account: string, s: Script)
    ensures Issues(w, s) ==> Issues(Swept(w, account, s), s)
  {
  }

  lemma ServeKeepsHonest(w: World, budget: nat, account: string, s: Script)
    requires Honest(w) && Issues(w, s)
    ensures Honest(Serve(w, budget, account, s).0)
  {
    KillKeepsHonest(w, s.found);
    SweepKeepsIds(w, account, s);
    assert Swept(w, account, s) == w || Swept(w, account, s) == Kill(w, s.found);
    MintKeepsHonest(Swept(w, account, s), account, s);
    var minted := Minted(Swept(w, account, s), account, s);
    KillKeepsHonest(minted, s.mintedId);
    KillKeepsHonest(Stored(minted, account, s.mintedId), s.mintedId);
    hide Honest, Kill, Minted, Stored, Swept, Issues;
  }

  lemma RevokeKeepsHonest(w: World, account: string, s: RevokeScript)
    requires Honest(w)
    ensures Honest(Revoke(w, account, s).0)
  {
  }

  /** A live token at Cloudflare under the account's own name. */
  predicate CarriesName(w: World, token: string, account: string) {
    token in w.live && token in w.names && w.names[token] == "prism-cp-user-" + account
  }

  /** The call gets as far as a mint that Cloudflare makes: nothing stored to serve, and room in the budget. */
  ghost predicate IsIssued(w: World, budget: nat, account: string, s: Script) {
    && s.ringUsable && s.readRow.Fine? && (account !in w.rows || w.rows[account].revoked)
    && s.count.Fine? && |LiveRows(w)| < budget && !s.mint.Refused?
  }

  /** The stored token while it opens, else one minted and stored; a lookup that fails throws. */
  lemma ServingAnswers(w: World, budget: nat, account: string, s: Script)
    ensures var r := Serve(w, budget, account, s).1;
      var stored := account in w.rows && !w.rows[account].revoked;
      && (r.Threw? <==> s.ringUsable && (!s.readRow.Fine? || (!stored && !s.count.Fine?)))
      && (r.Ok? <==> (s.ringUsable && s.readRow.Fine? && stored && s.opens)
                     || (IsIssued(w, budget, account, s) && s.mint.Fine? && s.put.Fine?))
      && (r.Ok? ==> r == if stored then Ok(w.rows[account].tokenId, false) else Ok(s.mintedId, true))
  {
    hide LiveRows, Named, Kill, TokenName;
  }

  /** A mint that happened is on Cloudflare's books; it is on ours once its reply and the store write came through. */
  lemma ServingRecords(w: World, budget: nat, account: string, s: Script)
    ensures var w' := Serve(w, budget, account, s).0;
      && w'.rows == (if IsIssued(w, budget, account, s) && s.mint.Fine? && !s.put.Refused?
                     then w.rows[account := Row(s.mintedId, false)] else w.rows)
      && w'.names == (if IsIssued(w, budget, account, s) then w.names[s.mintedId := "prism-cp-user-" + account] else w.names)
  {
    hide LiveRows, Named;
    assert TokenName(account) == "prism-cp-user-" + account;
  }

  /** What is live after the call: one same-named token swept before a mint, and the mint itself unless it was undone. */
  lemma ServingLeavesLive(w: World, budget: nat, account: string, s: Script)
    ensures var w' := Serve(w, budget, account, s).0;
      var mints := s.ringUsable && s.readRow.Fine? && (account !in w.rows || w.rows[account].revoked)
                   && s.count.Fine? && |LiveRows(w)| < budget;
      var swept := if mints && s.find.Fine? && CarriesName(w, s.found, account) && !s.sweep.Refused? then {s.found} else {};
      var issued := if IsIssued(w, budget, account, s) then {s.mintedId} else {};
      var undone := if IsIssued(w, budget, account, s) && s.mint.Fine? && !s.put.Fine? && !s.undo.Refused? then {s.mintedId} else {};
      w'.live == (w.live - swept + issued) - undone
  {
    hide LiveRows;
    assert TokenName(account) == "prism-cp-user-" + account;
    assert Named(w, s.found, account) == CarriesName(w, s.found, account);
    hide TokenName, CarriesName, Named;
  }

  /**
   Revoking goes to the recorded token, or to a live one under the account's name when none is recorded. It
   answers nothing exactly when there is neither, and done exactly when both writes were confirmed.
   */
  lemma RevokingExactly(w: World, account: string, s: RevokeScript)
    ensures var (w', r) := Revoke(w, account, s);
      var recorded := account in w.rows;
      var reached := s.readRow.Fine? && (recorded || s.find.Fine?);
      var has := recorded || CarriesName(w, s.found, account);
      && (r.Nothing? <==> reached && !has)
      && (r.Done? <==> reached && has && s.revoke.Fine? && s.mark.Fine?)
      && w'.names == w.names
      && w'.live == (if reached && has && !s.revoke.Refused?
                     then w.live - {if recorded then w.rows[account].tokenId else s.found} else w.live)
      && w'.rows == (if reached && recorded && s.revoke.Fine? && !s.mark.Refused?
                     then w.rows[account := Row(w.rows[account].tokenId, true)] else w.rows)
  {
    assert TokenName(account) == "prism-cp-user-" + account;
    assert Named(w, s.found, account) == CarriesName(w, s.found, account);
  }

  /** An answer always names the account's stored, unrevoked token; a fresh one is live. */
  lemma OkNamesTheStoredToken(w: World, budget: nat, account: string, s: Script)
    requires Honest(w) && Issues(w, s) && Serve(w, budget, account, s).1.Ok?
    ensures var (w', r) := Serve(w, budget, account, s);
      && account in w'.rows && w'.rows[account] == Row(r.tokenId, false)
      && w'.names[r.tokenId] == TokenName(account)
      && (r.minted ==> r.tokenId in w'.live)
      && (!r.minted ==> w' == w)
  {
  }

  /** A token the store points at is never revoked by serving, whatever fails. */
  lemma ServingSparesRecordedTokens(w: World, budget: nat, account: string, s: Script, token: string)
    requires Honest(w) && Issues(w, s) && token in w.live && Recorded(w, token)
    ensures token in Serve(w, budget, account, s).0.live && Recorded(Serve(w, budget, account, s).0, token)
  {
    var a :| a in w.rows && w.rows[a].tokenId == token;
    NamesAreDistinct(a, account);
    var w' := Serve(w, budget, account, s).0;
    assert a != account || w'.rows == w.rows;
    assert a in w'.rows && w'.rows[a].tokenId == token;
  }

  /**
   A live token the store does not know of appears in exactly two ways: the mint's reply was lost, or the
   store write failed and so did the revoke that should have undone it.
   */
  lemma OrphansAppearExactlyWhen(w: World, budget: nat, account: string, s: Script, token: string)
    requires Honest(w) && Issues(w, s)
    ensures var w' := Serve(w, budget, account, s).0;
      (token in w'.live && !Recorded(w', token) && !(token in w.live && !Recorded(w, token)))
      <==> (token == s.mintedId && Mints(w, budget, account, s)
            && (s.mint.LostReply? || (s.mint.Fine? && s.put.Refused? && s.undo.Refused?)))
  {
    var w' := Serve(w, budget, account, s).0;
    assert forall a :: a in w.rows ==> w.rows[a].tokenId != s.mintedId;
    if Mints(w, budget, account, s) && s.mint.Fine? && Took(s.put) {
      assert w'.rows[account].tokenId == s.mintedId;
    }
    if token in w.live && Recorded(w, token) { ServingSparesRecordedTokens(w, budget, account, s, token); }
    if token != s.mintedId {
      assert token in w'.live ==> token in w.live;
      if Recorded(w', token) { RecordsOnlyMove(w, budget, account, s, token); }
    }
  }

  /**
   The token minted in a call: when it stays live, when the store ends up pointing at it, and the one way
   the store points at a dead one - its write took effect, was reported lost, and was undone.
   */
  lemma FateOfTheNewToken(w: World, budget: nat, account: string, s: Script)
    requires Honest(w) && Issues(w, s)
    ensures var w' := Serve(w, budget, account, s).0;
      && (s.mintedId in w'.live
          <==> Mints(w, budget, account, s) && !s.mint.Refused? && (s.mint.LostReply? || s.put.Fine? || s.undo.Refused?))
      && (Recorded(w', s.mintedId) <==> Mints(w, budget, account, s) && s.mint.Fine? && Took(s.put))
      && (Recorded(w', s.mintedId) && s.mintedId !in w'.live
          <==> Mints(w, budget, account, s) && s.mint.Fine? && s.put.LostReply? && Took(s.undo))
  {
    var w' := Serve(w, budget, account, s).0;
    assert forall a :: a in w.rows ==> w.rows[a].tokenId != s.mintedId;
    if Mints(w, budget, account, s) && s.mint.Fine? && Took(s.put) {
      assert w'.rows[account].tokenId == s.mintedId;
    } else {
      assert w'.rows == w.rows;
    }
  }

  lemma RecordsOnlyMove(w: World, budget: nat, account: string, s: Script, token: string)
    requires token != s.mintedId && Recorded(Serve(w, budget, account, s).0, token)
    ensures Recorded(w, token)
  {
    var w' := Serve(w, budget, account, s).0;
    var a :| a in w'.rows && w'.rows[a].tokenId == token;
    assert a in w.rows && w.rows[a].tokenId == token;
  }

  /** A sweep that goes through removes one same-named orphan and nothing else. */
  lemma SweepRemovesOneOrphan(w: World, budget: nat, account: string, s: Script)
    requires Honest(w) && Issues(w, s) && Mints(w, budget, account, s)
    requires s.find.Fine? && Named(w, s.found, account) && Took(s.sweep)
    ensures var w' := Serve(w, budget, account, s).0;
      && !Recorded(w, s.found) && s.found !in w'.live
      && w'.live - {s.mintedId} == w.live - {s.found}
  {
    if Recorded(w, s.found) {
      var a :| a in w.rows && w.rows[a].tokenId == s.found;
      NamesAreDistinct(a, account);
    }
  }

  lemma LiveRowsGrowByOne(w: World, account: string, token: string)
    ensures |LiveRows(Stored(w, account, token))| <= |LiveRows(w)| + 1
  {
    assert LiveRows(Stored(w, account, token)) == LiveRows(w) + {account};
  }

  lemma SmallerSet(a: set<string>, b: set<string>)
    requires a <= b
    ensures |a| <= |b|
  {
    assert b == a + (b - a);
  }

  lemma LiveRowsAreRows(w: World, v: World)
    requires w.rows == v.rows
    ensures LiveRows(w) == LiveRows(v)
  {
  }

  /** A call never takes the live rows past the budget. */
  lemma BudgetIsKept(w: World, budget: nat, account: string, s: Script)
    ensures var n := |LiveRows(Serve(w, budget, account, s).0)|;
      n <= |LiveRows(w)| || n <= budget
  {
    var w' := Serve(w, budget, account, s).0;
    if w'.rows == w.rows {
      LiveRowsAreRows(w, w');
    } else {
      LiveRowsGrowByOne(w, account, s.mintedId);
      LiveRowsAreRows(Stored(w, account, s.mintedId), w');
    }
  }

  lemma RevokingFreesRows(w: World, account: string, s: RevokeScript)
    ensures LiveRows(Revoke(w, account, s).0) <= LiveRows(w)
  {
  }

  /** A confirmed revocation: the target is dead, the row says so, and no other token was touched. */
  lemma RevokedMeansDead(w: World, account: string, s: RevokeScript)
    requires Honest(w) && Revoke(w, account, s).1.Done?
    ensures var w' := Revoke(w, account, s).0;
      && w'.live == w.live - {if account in w.rows then w.rows[account].tokenId else s.found}
      && (account !in w.rows ==> CarriesName(w, s.found, account))
      && (account in w.rows ==> w'.rows == w.rows[account := Row(w.rows[account].tokenId, true)])
      && (account !in w.rows ==> w'.rows == w.rows)
  {
  }

  // ---- whole histories, one call after another ----

  datatype Action = Serving(account: string, script: Script) | Revoking(account: string, revoke: RevokeScript)

  ghost function Act(w: World, budget: nat, a: Action): World {
    match a
    case Serving(account, s) => Serve(w, budget, account, s).0
    case Revoking(account, s) => Revoke(w, account, s).0
  }

  ghost function After(budget: nat, actions: seq<Action>): World {
    if |actions| == 0 then EMPTY else Act(After(budget, actions[..|actions| - 1]), budget, actions[|actions| - 1])
  }

  /** No identifier is issued twice. */
  ghost predicate FreshIds(budget: nat, actions: seq<Action>) {
    forall i :: 0 <= i < |actions| && actions[i].Serving? ==> Issues(After(budget, actions[..i]), actions[i].script)
  }

  /** After any sequential history: the store is honest and within its budget. */
  lemma {:induction false} HistoryIsHonest(budget: nat, actions: seq<Action>)
    requires FreshIds(budget, actions)
    ensures Honest(After(budget, actions)) && |LiveRows(After(budget, actions))| <= budget
  {
    if |actions| == 0 {
      assert LiveRows(EMPTY) == {};
    } else {
      hide Serve, Revoke, Honest, LiveRows, Issues;
      var before, a := actions[..|actions| - 1], actions[|actions| - 1];
      var w := After(budget, before);
      assert FreshIds(budget, before) by {
        forall i | 0 <= i < |before| && before[i].Serving?
          ensures Issues(After(budget, before[..i]), before[i].script)
        {
          assert before[..i] == actions[..i] && before[i] == actions[i];
        }
      }
      HistoryIsHonest(budget, before);
      match a
      case Serving(account, s) =>
        ServeKeepsHonest(w, budget, account, s);
        BudgetIsKept(w, budget, account, s);
      case Revoking(account, s) =>
        RevokeKeepsHonest(w, account, s);
        RevokingFreesRows(w, account, s);
        SmallerSet(LiveRows(Revoke(w, account, s).0), LiveRows(w));
    }
  }
}
