/** One feed over both clients: every message goes through the mirror they share, and the
    monitor asks which pairs moved since it last asked. */
module BookFeed {
  import opened Wrappers
  import opened BookMirror
  import opened WsClients
  import opened MirrorRefinement

  datatype Pair = Pair(ktk: string, tokens: seq<string>)

  // Ids with the "us:" prefix are synthetic slugs the public channel does not know.
  predicate IsClob(id: string) {
    id != "" && !(|id| >= 3 && id[..3] == "us:")
  }

  lemma ClobIdsAre(id: string)
    ensures IsClob(id) <==> id != "" && !("us:" <= id)
    ensures !IsClob("us:" + id)
  {
    assert "us:" <= id ==> id[..3] == "us:";
    assert ("us:" + id)[..3] == "us:";
  }

  function AddTokens(m: map<string, string>, p: Pair, n: nat): map<string, string>
    requires n <= |p.tokens|
  {
    if n == 0 then m
    else if IsClob(p.tokens[n - 1]) then AddTokens(m, p, n - 1)[p.tokens[n - 1] := p.ktk]
    else AddTokens(m, p, n - 1)
  }

  // A later pair listing the same token takes it over.
  function TokenMap(pairs: seq<Pair>): map<string, string> {
    if pairs == [] then map[]
    else
      var p := pairs[|pairs| - 1];
      AddTokens(TokenMap(pairs[..|pairs| - 1]), p, |p.tokens|)
  }

  function Tickers(pairs: seq<Pair>): seq<string> {
    if pairs == [] then []
    else
      var p := pairs[|pairs| - 1];
      Tickers(pairs[..|pairs| - 1]) + (if p.ktk != "" then [p.ktk] else [])
  }

  // The pair a key belongs to.
  function WokenBy(m: map<string, string>, k: Key): Option<string> {
    match k
    case Token(id) => if id in m then Some(m[id]) else None
    case KYes(t) => Some(t)
    case KNo(t) => Some(t)
  }

  class WsBookFeed {
    const mirror: Mirror
    const pm: PMWsClient
    const kalshi: KalshiWsClient
    const tokenToPair: map<string, string>

    ghost predicate Valid()
      reads this, mirror
    {
      mirror.Valid() && pm.mirror == mirror && kalshi.mirror == mirror
    }

    ghost function View(): Feed
      reads this, mirror, pm, kalshi
    {
      Feed(mirror.View(), pm.books, kalshi.books)
    }

    constructor (pairs: seq<Pair>)
      ensures Valid() && View() == START && fresh(mirror) && fresh(pm) && fresh(kalshi)
      ensures tokenToPair == TokenMap(pairs) && kalshi.tickers == Tickers(pairs)
    {
      var tokenToPair: map<string, string> := map[];
      var tickers: seq<string> := [];
      assert pairs[..0] == [];
      for i := 0 to |pairs|
        invariant tokenToPair == TokenMap(pairs[..i]) && tickers == Tickers(pairs[..i])
      {
        var p := pairs[i];
        assert pairs[..i + 1][..i] == pairs[..i];
        if p.ktk != "" { tickers := tickers + [p.ktk]; }
        for j := 0 to |p.tokens|
          invariant tokenToPair == AddTokens(TokenMap(pairs[..i]), p, j)
        {
          if IsClob(p.tokens[j]) { tokenToPair := tokenToPair[p.tokens[j] := p.ktk]; }
        }
      }
      assert pairs[..|pairs|] == pairs;
      var mirror := new Mirror();
      this.tokenToPair, this.mirror := tokenToPair, mirror;
      this.pm := new PMWsClient(mirror);
      this.kalshi := new KalshiWsClient(mirror, tickers);
    }

    // One message or disconnect, from either socket.
    method Receive(e: Event, now: real)
      requires Valid() && !e.Drain?
      modifies mirror, pm, kalshi
      ensures Valid() && View() == Step(kalshi.tickers, old(View()), e)
    {
      match e
      case PmBook(_, _) => pm.HandleMessage(e, now);
      case PmChanges(_) => pm.HandleMessage(e, now);
      case PmDisconnect => pm.Disconnected();
      case KSnapshot(_, _, _) => kalshi.HandleMessage(e, now);
      case KDelta(_, _, _, _) => kalshi.HandleMessage(e, now);
      case KDisconnect => kalshi.Disconnected();
    }

    // The pairs whose ladders were set since the last call; the set starts over.
    method DirtyPairs() returns (keys: set<string>)
      requires Valid()
      modifies mirror
      ensures Valid() && View() == Step(kalshi.tickers, old(View()), Drain)
      ensures forall ktk :: ktk in keys <==> exists k :: k in old(mirror.dirty) && WokenBy(tokenToPair, k) == Some(ktk)
    {
      var left := mirror.PopDirty();
      ghost var all := left;
      keys := {};
      while left != {}
        invariant left <= all
        invariant forall ktk :: ktk in keys <==> exists k :: k in all - left && WokenBy(tokenToPair, k) == Some(ktk)
        decreases |left|
      {
        var k :| k in left;
        var woken := WokenBy(tokenToPair, k);
        ghost var seen, was := all - left, keys;
        if woken.Some? { keys := keys + {woken.value}; }
        left := left - {k};
        assert all - left == seen + {k};
      }
      assert all - left == all;
    }
  }

  // ------------------------------------------------------------- what wakes whom

  predicate NoDrain(es: seq<Event>) { forall e :: e in es ==> !e.Drain? }

  // Was this key named by the message?
  predicate Names(e: Event, k: Key) {
    match k
    case Token(id) => (e.PmBook? && e.token == id) || (e.PmChanges? && exists c :: c in e.changes && c.token == id)
    case KYes(t) => (e.KSnapshot? || e.KDelta?) && e.ticker == t
    case KNo(t) => (e.KSnapshot? || e.KDelta?) && e.ticker == t
  }

  // The keys whose ladders a list of changes sets: tokens with a live snapshot when their
  // change comes, an ask side and a readable level.
  ghost function SetByChanges(s: PmState, cs: seq<Change>): set<Key> {
    if cs == [] then {}
    else
      var init, c := cs[..|cs| - 1], cs[|cs| - 1];
      var sets := c.token != "" && c.token in ApplyChanges(s, init).books && c.askSide && c.level.Some?;
      SetByChanges(s, init) + (if sets then {Token(c.token)} else {})
  }

  // The keys whose ladders one message sets.
  ghost function SetBy(f: Feed, e: Event): set<Key> {
    match e
    case PmBook(token, _) => if token == "" then {} else {Token(token)}
    case PmChanges(cs) => SetByChanges(PmState(f.shelf, f.pm), cs)
    case KSnapshot(t, _, _) => if t == "" then {} else {KYes(t), KNo(t)}
    case KDelta(t, _, _, _) => if t == "" then {} else {KYes(t), KNo(t)}
    case _ => {}
  }

  lemma {:induction false} ChangesDirty(s: PmState, cs: seq<Change>)
    ensures ApplyChanges(s, cs).shelf.dirty == s.shelf.dirty + SetByChanges(s, cs)
  {
    hide Put;
    if cs != [] { ChangesDirty(s, cs[..|cs| - 1]); }
  }

  lemma StepDirty(tickers: seq<string>, f: Feed, e: Event)
    ensures Step(tickers, f, e).shelf.dirty == if e.Drain? then {} else f.shelf.dirty + SetBy(f, e)
  {
    hide ApplyChanges, SetByChanges, Asks, FromPairs, FromQuotes, BumpSide;
    if e.PmChanges? { ChangesDirty(PmState(f.shelf, f.pm), e.changes); }
  }

  // Did message i set the key, with no drain from there on?
  ghost predicate SetAt(tickers: seq<string>, f: Feed, es: seq<Event>, k: Key, i: int)
    requires 0 <= i < |es|
  {
    NoDrain(es[i..]) && k in SetBy(Run(tickers, f, es[..i]), es[i])
  }

  ghost predicate SetSinceDrain(tickers: seq<string>, f: Feed, es: seq<Event>, k: Key) {
    exists i :: 0 <= i < |es| && SetAt(tickers, f, es, k, i)
  }

  // The dirty set is exact: over any messages and drains, a key is flagged when and only
  // when its ladder was set since the last drain, or it was flagged at the start and there
  // was none. It does not matter what happened to the ladder since.
  lemma {:induction false} DirtyIsExact(tickers: seq<string>, f: Feed, es: seq<Event>, k: Key)
    ensures k in Run(tickers, f, es).shelf.dirty
       <==> (NoDrain(es) && k in f.shelf.dirty) || SetSinceDrain(tickers, f, es, k)
  {
    hide Step, SetBy, SetSinceDrain, NoDrain;
    if es == [] {
      NothingSet(tickers, f, k);
    } else {
      var n := |es| - 1;
      DirtyIsExact(tickers, f, es[..n], k);
      StepDirty(tickers, Run(tickers, f, es[..n]), es[n]);
      SetSinceSnoc(tickers, f, es, k);
    }
  }

  lemma NothingSet(tickers: seq<string>, f: Feed, k: Key)
    ensures NoDrain([]) && !SetSinceDrain(tickers, f, [], k)
  {
  }

  lemma SetSinceSnoc(tickers: seq<string>, f: Feed, es: seq<Event>, k: Key)
    requires es != []
    ensures var n := |es| - 1;
            && (NoDrain(es) <==> NoDrain(es[..n]) && !es[n].Drain?)
            && (SetSinceDrain(tickers, f, es, k) <==>
                  && !es[n].Drain?
                  && (SetSinceDrain(tickers, f, es[..n], k) || k in SetBy(Run(tickers, f, es[..n]), es[n])))
  {
    hide SetAt, SetBy, Run, NoDrain;
    var n := |es| - 1;
    NoDrainSnoc(es, 0);
    assert es[0..] == es && es[..n][0..] == es[..n];
    SetAtLast(tickers, f, es, k);
    forall i | 0 <= i < n ensures SetAt(tickers, f, es, k, i) <==> SetAt(tickers, f, es[..n], k, i) && !es[n].Drain? {
      SetAtEarlier(tickers, f, es, k, i);
    }
  }

  lemma SetAtLast(tickers: seq<string>, f: Feed, es: seq<Event>, k: Key)
    requires es != []
    ensures var n := |es| - 1;
            SetAt(tickers, f, es, k, n) <==> !es[n].Drain? && k in SetBy(Run(tickers, f, es[..n]), es[n])
  {
    hide SetBy, Run;
    assert es[|es| - 1..] == [es[|es| - 1]];
  }

  lemma SetAtEarlier(tickers: seq<string>, f: Feed, es: seq<Event>, k: Key, i: int)
    requires 0 <= i < |es| - 1
    ensures SetAt(tickers, f, es, k, i) <==> SetAt(tickers, f, es[..|es| - 1], k, i) && !es[|es| - 1].Drain?
  {
    hide SetBy, Run, NoDrain;
    var n := |es| - 1;
    NoDrainSnoc(es, i);
    assert es[..n][..i] == es[..i] && es[..n][i] == es[i];
  }

  lemma NoDrainSnoc(es: seq<Event>, i: nat)
    requires es != [] && i < |es|
    ensures NoDrain(es[i..]) <==> NoDrain(es[..|es| - 1][i..]) && !es[|es| - 1].Drain?
  {
    var n := |es| - 1;
    assert es[i..] == es[..n][i..] + [es[n]];
  }

  ghost predicate Moved(before: Shelf, after: Shelf, k: Key) {
    k in after.held && (k !in before.held || before.held[k] != after.held[k])
  }

  // A step of shelves that flags everything it moved.
  ghost predicate Flags(before: Shelf, after: Shelf) {
    before.dirty <= after.dirty && forall k :: Moved(before, after, k) ==> k in after.dirty
  }

  lemma FlagsCompose(a: Shelf, b: Shelf, c: Shelf)
    requires Flags(a, b) && Flags(b, c)
    ensures Flags(a, c)
  {
    forall k | Moved(a, c, k) ensures k in c.dirty {
      if !Moved(b, c, k) { assert Moved(a, b, k); }
    }
  }

  lemma {:induction false} ChangesFlag(s: PmState, cs: seq<Change>)
    ensures Flags(s.shelf, ApplyChanges(s, cs).shelf)
  {
    hide Put;
    if cs != [] {
      var mid := ApplyChanges(s, cs[..|cs| - 1]);
      ChangesFlag(s, cs[..|cs| - 1]);
      assert Flags(mid.shelf, ApplyChange(mid, cs[|cs| - 1]).shelf);
      FlagsCompose(s.shelf, mid.shelf, ApplyChange(mid, cs[|cs| - 1]).shelf);
    }
  }

  lemma StepFlags(tickers: seq<string>, f: Feed, e: Event)
    requires !e.Drain?
    ensures Flags(f.shelf, Step(tickers, f, e).shelf)
  {
    hide ApplyChanges, Asks, FromPairs, FromQuotes, BumpSide;
    if e.PmChanges? { ChangesFlag(PmState(f.shelf, f.pm), e.changes); }
  }

  // Between two drains, whatever message order: a ladder that is new or changed is flagged.
  lemma {:induction false} RunFlags(tickers: seq<string>, f: Feed, es: seq<Event>)
    requires NoDrain(es)
    ensures Flags(f.shelf, Run(tickers, f, es).shelf)
  {
    hide Step, Flags;
    if es == [] {
      NothingFlags(f.shelf);
    } else {
      var init, e := es[..|es| - 1], es[|es| - 1];
      var mid := Run(tickers, f, init);
      RunFlags(tickers, f, init);
      StepFlags(tickers, mid, e);
      FlagsCompose(f.shelf, mid.shelf, Step(tickers, mid, e).shelf);
    }
  }

  lemma NothingFlags(s: Shelf)
    ensures Flags(s, s)
  {
  }

  lemma {:induction false} ChangesMention(s: PmState, cs: seq<Change>, k: Key)
    requires k in ApplyChanges(s, cs).shelf.dirty
    ensures k in s.shelf.dirty || Names(PmChanges(cs), k)
  {
    hide Put;
    if cs != [] {
      var init, c := cs[..|cs| - 1], cs[|cs| - 1];
      assert c in cs;
      if k in ApplyChanges(s, init).shelf.dirty {
        ChangesMention(s, init, k);
        if Names(PmChanges(init), k) {
          var d :| d in init && d.token == k.id;
          assert d in cs;
        }
      }
    }
  }

  lemma StepMentions(tickers: seq<string>, f: Feed, e: Event, k: Key)
    requires k in Step(tickers, f, e).shelf.dirty
    ensures k in f.shelf.dirty || Names(e, k)
  {
    hide ApplyChanges, Asks, FromPairs, FromQuotes, BumpSide;
    if e.PmChanges? { ChangesMention(PmState(f.shelf, f.pm), e.changes, k); }
  }

  // Nothing else is flagged: a key not flagged before was named by some message.
  lemma {:induction false} OnlyMessagesFlag(tickers: seq<string>, f: Feed, es: seq<Event>, k: Key)
    requires k in Run(tickers, f, es).shelf.dirty
    ensures k in f.shelf.dirty || exists e :: e in es && Names(e, k)
  {
    hide Step, Names;
    if es != [] {
      var init, e := es[..|es| - 1], es[|es| - 1];
      assert e in es;
      StepMentions(tickers, Run(tickers, f, init), e, k);
      if k in Run(tickers, f, init).shelf.dirty {
        OnlyMessagesFlag(tickers, f, init, k);
      }
    }
  }

  predicate Lists(p: Pair, token: string) { token in p.tokens && IsClob(token) }

  // The last pair that lists a token, or none.
  function LastLister(pairs: seq<Pair>, token: string): Option<Pair> {
    if pairs == [] then None
    else if Lists(pairs[|pairs| - 1], token) then Some(pairs[|pairs| - 1])
    else LastLister(pairs[..|pairs| - 1], token)
  }

  lemma {:induction false} AddTokensMaps(m: map<string, string>, p: Pair, n: nat, token: string)
    requires n <= |p.tokens|
    ensures var listed := token in p.tokens[..n] && IsClob(token);
            && (token in AddTokens(m, p, n) <==> listed || token in m)
            && (listed ==> AddTokens(m, p, n)[token] == p.ktk)
            && (!listed && token in m ==> AddTokens(m, p, n)[token] == m[token])
  {
    hide IsClob;
    if n > 0 {
      AddTokensMaps(m, p, n - 1, token);
      assert p.tokens[..n] == p.tokens[..n - 1] + [p.tokens[n - 1]];
    }
  }

  lemma {:induction false} TokenMapIsLast(pairs: seq<Pair>, token: string)
    ensures token in TokenMap(pairs) <==> LastLister(pairs, token).Some?
    ensures token in TokenMap(pairs) ==> TokenMap(pairs)[token] == LastLister(pairs, token).value.ktk
  {
    if pairs != [] {
      var p := pairs[|pairs| - 1];
      TokenMapIsLast(pairs[..|pairs| - 1], token);
      AddTokensMaps(TokenMap(pairs[..|pairs| - 1]), p, |p.tokens|, token);
      assert p.tokens[..|p.tokens|] == p.tokens;
    }
  }

  ghost predicate Woken(pairs: seq<Pair>, dirty: set<Key>, ktk: string) {
    exists k :: k in dirty && WokenBy(TokenMap(pairs), k) == Some(ktk)
  }

  // A flagged Kalshi key wakes its pair; a flagged token wakes the pair that lists it, unless
  // a later pair with another ticker lists the same token.
  ghost predicate Wakes(pairs: seq<Pair>, dirty: set<Key>, k: Key) {
    match k
    case Token(id) => LastLister(pairs, id).Some? ==> Woken(pairs, dirty, LastLister(pairs, id).value.ktk)
    case KYes(t) => Woken(pairs, dirty, t)
    case KNo(t) => Woken(pairs, dirty, t)
  }

  lemma FlaggedWakes(pairs: seq<Pair>, dirty: set<Key>, k: Key)
    requires k in dirty
    ensures Wakes(pairs, dirty, k)
  {
    hide TokenMap, LastLister;
    if k.Token? {
      TokenMapIsLast(pairs, k.id);
    }
    match k
    case Token(id) =>
      if LastLister(pairs, id).Some? { assert WokenBy(TokenMap(pairs), k) == Some(LastLister(pairs, id).value.ktk); }
    case KYes(t) => assert WokenBy(TokenMap(pairs), k) == Some(t);
    case KNo(t) => assert WokenBy(TokenMap(pairs), k) == Some(t);
  }

  // Every ladder set since the last drain wakes its pair at the next one, even if it was
  // dropped or set back meanwhile.
  lemma SetsWake(pairs: seq<Pair>, f: Feed, es: seq<Event>, k: Key)
    requires SetSinceDrain(Tickers(pairs), f, es, k)
    ensures Wakes(pairs, Run(Tickers(pairs), f, es).shelf.dirty, k)
  {
    hide Run, SetSinceDrain, NoDrain, Wakes;
    DirtyIsExact(Tickers(pairs), f, es, k);
    FlaggedWakes(pairs, Run(Tickers(pairs), f, es).shelf.dirty, k);
  }

  // In particular every ladder that is new or has changed.
  lemma MovesWake(pairs: seq<Pair>, f: Feed, es: seq<Event>, k: Key)
    requires NoDrain(es) && Moved(f.shelf, Run(Tickers(pairs), f, es).shelf, k)
    ensures Wakes(pairs, Run(Tickers(pairs), f, es).shelf.dirty, k)
  {
    hide Run, Moved, Wakes;
    RunFlags(Tickers(pairs), f, es);
    FlaggedWakes(pairs, Run(Tickers(pairs), f, es).shelf.dirty, k);
  }

  // When only a token moves, a pair that lists it is woken exactly when the last pair that
  // lists it has the same ticker.
  lemma TokenWakesIff(pairs: seq<Pair>, token: string, p: Pair)
    requires p in pairs && Lists(p, token)
    ensures LastLister(pairs, token).Some?
    ensures Woken(pairs, {Token(token)}, p.ktk) <==> LastLister(pairs, token).value.ktk == p.ktk
  {
    hide TokenMap, Lists;
    Listed(pairs, token, p);
    TokenMapIsLast(pairs, token);
    assert WokenBy(TokenMap(pairs), Token(token)) == Some(LastLister(pairs, token).value.ktk);
  }

  lemma {:induction false} Listed(pairs: seq<Pair>, token: string, p: Pair)
    requires p in pairs && Lists(p, token)
    ensures LastLister(pairs, token).Some?
  {
    hide Lists;
    if p != pairs[|pairs| - 1] { Listed(pairs[..|pairs| - 1], token, p); }
  }

  // Two pairs that share a token: when only that token moves, the earlier pair sleeps on.
  lemma SharedTokenSleeps(token: string, first: string, second: string)
    requires IsClob(token) && first != second
    ensures var pairs := [Pair(first, [token]), Pair(second, [token])];
            Lists(pairs[0], token) && !Woken(pairs, {Token(token)}, first) && Woken(pairs, {Token(token)}, second)
  {
    hide TokenMap, IsClob;
    var pairs := [Pair(first, [token]), Pair(second, [token])];
    TokenMapIsLast(pairs, token);
    assert WokenBy(TokenMap(pairs), Token(token)) == Some(second);
  }
}
