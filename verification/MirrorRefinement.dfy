/** What the incremental mirror refines: a reference that reads the whole message history
    and never keeps a book. Every ladder held equals the one the reference gives. */
module MirrorRefinement {
  import opened BookMirror
  import opened WsClients

  datatype Feed = Feed(shelf: Shelf, pm: map<string, Book>, kalshi: map<string, KBook>)

  const START := Feed(Shelf(map[], {}), map[], map[])

  ghost function Step(tickers: seq<string>, f: Feed, e: Event): Feed {
    match e
    case PmBook(_, _) => var s := PmStep(PmState(f.shelf, f.pm), e); f.(shelf := s.shelf, pm := s.books)
    case PmChanges(_) => var s := PmStep(PmState(f.shelf, f.pm), e); f.(shelf := s.shelf, pm := s.books)
    case PmDisconnect => var s := PmStep(PmState(f.shelf, f.pm), e); f.(shelf := s.shelf, pm := s.books)
    case KSnapshot(_, _, _) =>
      var s := KStep(tickers, KState(f.shelf, f.kalshi), e); f.(shelf := s.shelf, kalshi := s.books)
    case KDelta(_, _, _, _) =>
      var s := KStep(tickers, KState(f.shelf, f.kalshi), e); f.(shelf := s.shelf, kalshi := s.books)
    case KDisconnect => var s := KStep(tickers, KState(f.shelf, f.kalshi), e); f.(shelf := s.shelf, kalshi := s.books)
    case Drain => f.(shelf := f.shelf.(dirty := {}))
  }

  ghost function Run(tickers: seq<string>, f: Feed, es: seq<Event>): Feed {
    if es == [] then f else Step(tickers, Run(tickers, f, es[..|es| - 1]), es[|es| - 1])
  }

  // ------------------------------------------------------ the reference, Polymarket

  // Is there a snapshot of this token not since invalidated?
  function HasBookAfter(cs: seq<Change>, token: string, before: bool): bool {
    if cs == [] then before
    else
      var c := cs[|cs| - 1];
      if c.token == token && c.askSide && c.level.None? then false
      else HasBookAfter(cs[..|cs| - 1], token, before)
  }

  function HasBook(es: seq<Event>, token: string): bool {
    if es == [] then false
    else
      match es[|es| - 1]
      case PmBook(t, _) => (t == token && token != "") || HasBook(es[..|es| - 1], token)
      case PmChanges(cs) => HasBookAfter(cs, token, HasBook(es[..|es| - 1], token))
      case PmDisconnect => false
      case _ => HasBook(es[..|es| - 1], token)
  }

  // The last absolute size given for a price: by a change, or by the last snapshot.
  function SizeAfter(cs: seq<Change>, token: string, p: Price, before: real): real {
    if cs == [] then before
    else
      var c := cs[|cs| - 1];
      if c.token == token && c.askSide && c.level.Some? && c.level.value.price == p then c.level.value.size
      else SizeAfter(cs[..|cs| - 1], token, p, before)
  }

  // The size a list of levels gives for a price: the last one.
  function Quoted(qs: seq<Quote>, p: Price): real {
    if qs == [] then 0.0 else if qs[|qs| - 1].price == p then qs[|qs| - 1].size else Quoted(qs[..|qs| - 1], p)
  }

  lemma {:induction false} QuotedLevel(qs: seq<Quote>, p: Price)
    ensures LevelOf(FromQuotes(qs), p) == Quoted(qs, p)
  {
    if qs != [] { QuotedLevel(qs[..|qs| - 1], p); }
  }

  function SizeAt(es: seq<Event>, token: string, p: Price): real {
    if es == [] then 0.0
    else
      match es[|es| - 1]
      case PmBook(t, asks) => if t == token then Quoted(asks, p) else SizeAt(es[..|es| - 1], token, p)
      case PmChanges(cs) => SizeAfter(cs, token, p, SizeAt(es[..|es| - 1], token, p))
      case _ => SizeAt(es[..|es| - 1], token, p)
  }

  // Positive part of a level.
  function Shown(m: Book, p: Price): real { if p in m && m[p] > 0.0 then m[p] else 0.0 }

  function Positive(x: real): real { if x > 0.0 then x else 0.0 }

  // The incremental state of one token against a reference presence and size.
  ghost predicate TokenAgrees(held: map<Key, Book>, books: map<string, Book>, token: string, present: bool, p: Price,
                              size: real) {
    && (token in books <==> present)
    && (Token(token) in held <==> present)
    && (present ==> held[Token(token)] == books[token] && Shown(books[token], p) == Positive(size))
  }

  lemma {:induction false} ChangesAgree(s: PmState, cs: seq<Change>, token: string, p: Price, present: bool, size: real)
    requires token != "" && TokenAgrees(s.shelf.held, s.books, token, present, p, size)
    ensures var s' := ApplyChanges(s, cs);
            TokenAgrees(s'.shelf.held, s'.books, token, HasBookAfter(cs, token, present), p,
                        SizeAfter(cs, token, p, size))
  {
    hide Shown, Positive, Put;
    if cs != [] {
      var init, c := cs[..|cs| - 1], cs[|cs| - 1];
      ChangesAgree(s, init, token, p, present, size);
      ChangeAgrees(ApplyChanges(s, init), c, token, p, HasBookAfter(init, token, present),
                   SizeAfter(init, token, p, size));
    }
  }

  lemma ChangeAgrees(s: PmState, c: Change, token: string, p: Price, present: bool, size: real)
    requires token != "" && TokenAgrees(s.shelf.held, s.books, token, present, p, size)
    ensures var s' := ApplyChange(s, c);
            var hit := c.token == token && c.askSide;
            TokenAgrees(s'.shelf.held, s'.books, token, present && !(hit && c.level.None?), p,
                        if hit && c.level.Some? && c.level.value.price == p then c.level.value.size else size)
  {
  }

  // Tokens: the book kept equals the reference, and a ladder is held exactly when there
  // is a live snapshot.
  lemma {:induction false} PmRefines(tickers: seq<string>, es: seq<Event>, token: string, p: Price)
    requires token != ""
    ensures var f := Run(tickers, START, es);
            TokenAgrees(f.shelf.held, f.pm, token, HasBook(es, token), p, SizeAt(es, token, p))
  {
    hide ApplyChanges, TokenAgrees, HasBookAfter, SizeAfter, FromQuotes, BumpSide, Asks, FromPairs;
    if es == [] {
      StartAgrees(token, p);
    } else {
      var init, e := es[..|es| - 1], es[|es| - 1];
      var f := Run(tickers, START, init);
      PmRefines(tickers, init, token, p);
      match e
      case PmBook(t, asks) => SnapshotAgrees(PmState(f.shelf, f.pm), e, token, p, HasBook(init, token),
                                             SizeAt(init, token, p));
      case PmChanges(cs) => ChangesAgree(PmState(f.shelf, f.pm), cs, token, p, HasBook(init, token),
                                         SizeAt(init, token, p));
      case PmDisconnect => GoneAgrees(token, p, SizeAt(init, token, p));
      case _ => OtherAgrees(tickers, f, e, token, HasBook(init, token), p, SizeAt(init, token, p));
    }
  }

  lemma StartAgrees(token: string, p: Price)
    ensures TokenAgrees(START.shelf.held, START.pm, token, false, p, 0.0)
  {
  }

  lemma GoneAgrees(token: string, p: Price, size: real)
    ensures TokenAgrees(map[], map[], token, false, p, size)
  {
  }

  lemma SnapshotAgrees(s: PmState, e: Event, token: string, p: Price, present: bool, size: real)
    requires e.PmBook? && token != "" && TokenAgrees(s.shelf.held, s.books, token, present, p, size)
    ensures var s' := PmStep(s, e);
            TokenAgrees(s'.shelf.held, s'.books, token, e.token == token || present, p,
                        if e.token == token then Quoted(e.asks, p) else size)
  {
    hide FromQuotes, Quoted;
    QuotedLevel(e.asks, p);
  }

  // Kalshi's messages never touch a token.
  lemma OtherAgrees(tickers: seq<string>, f: Feed, e: Event, token: string, present: bool, p: Price, size: real)
    requires !e.PmBook? && !e.PmChanges? && !e.PmDisconnect?
    requires TokenAgrees(f.shelf.held, f.pm, token, present, p, size)
    ensures var f' := Step(tickers, f, e); TokenAgrees(f'.shelf.held, f'.pm, token, present, p, size)
  {
    hide Shown, Positive, Asks, FromPairs, BumpSide;
  }

  // What a reader of the mirror sees, for a book that agrees with a reference size.
  lemma LadderShows(ls: seq<Quote>, m: Book, q: Quote, size: real)
    requires IsLadder(ls, m) && Shown(m, q.price) == Positive(size)
    ensures q in ls <==> q.size > 0.0 && q.size == size
  {
  }

  // A served Polymarket ladder holds exactly the last positive sizes given.
  lemma PmLadderIsReplay(tickers: seq<string>, es: seq<Event>, token: string, ls: seq<Quote>, q: Quote)
    requires token != ""
    ensures Token(token) in Run(tickers, START, es).shelf.held <==> HasBook(es, token)
    ensures HasBook(es, token) && IsLadder(ls, Run(tickers, START, es).shelf.held[Token(token)]) ==>
              (q in ls <==> q.size > 0.0 && q.size == SizeAt(es, token, q.price))
  {
    hide Run, HasBook, SizeAt, Shown, Positive, IsLadder;
    PmRefines(tickers, es, token, q.price);
    var m := Run(tickers, START, es).shelf.held;
    if HasBook(es, token) && IsLadder(ls, m[Token(token)]) {
      LadderShows(ls, m[Token(token)], q, SizeAt(es, token, q.price));
    }
  }

  // ---------------------------------------------------------- the reference, Kalshi

  function AskKey(t: string, side: Side): Key {
    match side
    case Yes => KYes(t)
    case No => KNo(t)
  }

  function Other(side: Side): Side { if side == Yes then No else Yes }

  // Are there ladders of this ticker? Any message about it publishes both sides, and a
  // disconnect of EITHER client takes them away.
  function KLive(es: seq<Event>, t: string): bool {
    if es == [] then false
    else
      match es[|es| - 1]
      case KSnapshot(u, _, _) => u == t || KLive(es[..|es| - 1], t)
      case KDelta(u, _, _, _) => u == t || KLive(es[..|es| - 1], t)
      case KDisconnect => false
      case PmDisconnect => false
      case _ => KLive(es[..|es| - 1], t)
  }

  predicate Hits(e: Event, t: string, side: Side, p: Price) {
    e.KDelta? && e.ticker == t && e.side == side && 10_000 * e.cents == p.micros
  }

  predicate Rebases(e: Event, t: string) {
    e.KDisconnect? || (e.KSnapshot? && e.ticker == t)
  }

  function BaseSize(e: Event, side: Side, p: Price): real {
    if e.KSnapshot? then Listed(if side == Yes then e.yes else e.no, p) else 0.0
  }

  // The size a snapshot lists for a price, its own prices being whole cents: the last one.
  function Listed(ps: seq<(int, real)>, p: Price): real {
    if ps == [] then 0.0
    else if 10_000 * ps[|ps| - 1].0 == p.micros then ps[|ps| - 1].1
    else Listed(ps[..|ps| - 1], p)
  }

  lemma {:induction false} ListedLevel(ps: seq<(int, real)>, p: Price)
    ensures LevelOf(FromPairs(ps), p) == Listed(ps, p)
  {
    if ps != [] { ListedLevel(ps[..|ps| - 1], p); }
  }

  // The last snapshot's size plus the sum of every later increment.
  function Total(es: seq<Event>, t: string, side: Side, p: Price): real {
    if es == [] then 0.0
    else
      var init, e := es[..|es| - 1], es[|es| - 1];
      if Rebases(e, t) then BaseSize(e, side, p)
      else if Hits(e, t, side, p) then Total(init, t, side, p) + e.delta
      else Total(init, t, side, p)
  }

  // How far below zero that total has been after an increment, since the last snapshot.
  function Overdraft(es: seq<Event>, t: string, side: Side, p: Price): real {
    if es == [] || Rebases(es[|es| - 1], t) then 0.0
    else
      var init, e := es[..|es| - 1], es[|es| - 1];
      var low := Overdraft(init, t, side, p);
      if Hits(e, t, side, p) && -Total(es, t, side, p) > low then -Total(es, t, side, p) else low
  }

  // Every increment since the last snapshot left a total of at least zero.
  predicate NeverOverdrawn(es: seq<Event>, t: string, side: Side, p: Price) {
    if es == [] || Rebases(es[|es| - 1], t) then true
    else
      && NeverOverdrawn(es[..|es| - 1], t, side, p)
      && (Hits(es[|es| - 1], t, side, p) ==> Total(es, t, side, p) >= 0.0)
  }

  lemma {:induction false} OverdraftZeroIff(es: seq<Event>, t: string, side: Side, p: Price)
    ensures Overdraft(es, t, side, p) >= 0.0
    ensures Overdraft(es, t, side, p) == 0.0 <==> NeverOverdrawn(es, t, side, p)
  {
    hide Total, Hits, Rebases;
    if es != [] { OverdraftZeroIff(es[..|es| - 1], t, side, p); }
  }

  // The incremental books of one ticker against the reference totals at one price.
  ghost predicate BooksAgree(books: map<string, KBook>, t: string, side: Side, p: Price, total: real, over: real) {
    LevelOf(SideOf(BookOf(books, t), side), p) == total + over
  }

  ghost predicate ShelfAgrees(f: Feed, t: string, live: bool) {
    && (KYes(t) in f.shelf.held <==> live) && (KNo(t) in f.shelf.held <==> live)
    && (live ==> f.shelf.held[KYes(t)] == Asks(BookOf(f.kalshi, t).no))
    && (live ==> f.shelf.held[KNo(t)] == Asks(BookOf(f.kalshi, t).yes))
  }

  lemma BumpLevel(m: Book, p: Price, delta: real, q: Price)
    ensures LevelOf(Bump(m, p, delta), q) ==
            (if p != q then LevelOf(m, q) else if LevelOf(m, p) + delta <= 0.0 then 0.0 else LevelOf(m, p) + delta)
  {
  }

  lemma BumpSideLevel(b: KBook, s: Side, p: Price, delta: real, side: Side, q: Price)
    ensures SideOf(BumpSide(b, s, p, delta), side)
        == (if s == side then Bump(SideOf(b, side), p, delta) else SideOf(b, side))
  {
  }

  // The level one message leaves at a price.
  lemma KalshiStepLevel(tickers: seq<string>, f: Feed, e: Event, t: string, side: Side, p: Price)
    requires t != ""
    ensures var before := LevelOf(SideOf(BookOf(f.kalshi, t), side), p);
            var after := LevelOf(SideOf(BookOf(Step(tickers, f, e).kalshi, t), side), p);
            after == (if Rebases(e, t) then BaseSize(e, side, p)
                      else if Hits(e, t, side, p) then (if before + e.delta <= 0.0 then 0.0 else before + e.delta)
                      else before)
  {
    hide PmStep, PublishBoth, KeysOf, FromPairs, Bump, BumpSide, Listed;
    if e.KSnapshot? {
      ListedLevel(e.yes, p);
      ListedLevel(e.no, p);
    }
    if e.KDelta? {
      var b := BookOf(f.kalshi, e.ticker);
      BumpSideLevel(b, e.side, Cents(e.cents), e.delta, side, p);
      BumpLevel(SideOf(b, side), Cents(e.cents), e.delta, p);
    }
  }

  // The reflection: clamping each step at zero adds exactly the overdraft so far.
  lemma {:induction false} KalshiBooksRefine(tickers: seq<string>, es: seq<Event>, t: string, side: Side, p: Price)
    requires t != ""
    ensures BooksAgree(Run(tickers, START, es).kalshi, t, side, p, Total(es, t, side, p), Overdraft(es, t, side, p))
  {
    hide Step, Rebases, BaseSize, Hits, LevelOf, BookOf, SideOf;
    if es == [] {
      StartLevel(t, side, p);
    } else {
      var init, e := es[..|es| - 1], es[|es| - 1];
      KalshiBooksRefine(tickers, init, t, side, p);
      KalshiStepLevel(tickers, Run(tickers, START, init), e, t, side, p);
      HitsNotRebases(e, t, side, p);
    }
  }

  lemma StartLevel(t: string, side: Side, p: Price)
    ensures LevelOf(SideOf(BookOf(START.kalshi, t), side), p) == 0.0
  {
  }

  lemma HitsNotRebases(e: Event, t: string, side: Side, p: Price)
    ensures !(Hits(e, t, side, p) && Rebases(e, t))
  {
  }

  lemma ShelfStep(tickers: seq<string>, f: Feed, e: Event, t: string, live: bool)
    requires t != "" && t in tickers && ShelfAgrees(f, t, live)
    ensures ShelfAgrees(Step(tickers, f, e), t,
              if e.KDisconnect? || e.PmDisconnect? then false
              else ((e.KSnapshot? || e.KDelta?) && e.ticker == t) || live)
  {
    hide Asks, FromPairs, BumpSide, ApplyChanges;
    if e.PmChanges? { ChangesKeepKalshi(PmState(f.shelf, f.pm), e.changes); }
  }

  // Both published ladders are the books', however the two clients' messages interleave.
  lemma {:induction false} KalshiShelfRefines(tickers: seq<string>, es: seq<Event>, t: string)
    requires t != "" && t in tickers
    ensures ShelfAgrees(Run(tickers, START, es), t, KLive(es, t))
  {
    hide Step, Asks;
    if es != [] {
      var init, e := es[..|es| - 1], es[|es| - 1];
      KalshiShelfRefines(tickers, init, t);
      ShelfStep(tickers, Run(tickers, START, init), e, t, KLive(init, t));
    }
  }

  lemma {:induction false} ChangesKeepKalshi(s: PmState, cs: seq<Change>)
    ensures forall k: Key :: !k.Token? ==> (k in ApplyChanges(s, cs).shelf.held <==> k in s.shelf.held)
    ensures forall k: Key :: !k.Token? && k in s.shelf.held ==> ApplyChanges(s, cs).shelf.held[k] == s.shelf.held[k]
  {
    if cs != [] { ChangesKeepKalshi(s, cs[..|cs| - 1]); }
  }

  // A served Kalshi ladder is the complement of the other side's running total, raised by
  // its overdraft; with no overdraft it is the complement of the total itself.
  lemma KalshiLadderIsReplay(tickers: seq<string>, es: seq<Event>, t: string, side: Side, ls: seq<Quote>, q: Quote)
    requires t != "" && t in tickers
    ensures AskKey(t, side) in Run(tickers, START, es).shelf.held <==> KLive(es, t)
    ensures KLive(es, t) && IsLadder(ls, Run(tickers, START, es).shelf.held[AskKey(t, side)]) ==>
              var p := Price(1_000_000 - q.price.micros);
              (q in ls <==> q.size > 0.0 && q.size == Total(es, t, Other(side), p) + Overdraft(es, t, Other(side), p))
  {
    hide Run, KLive, Total, Overdraft, IsLadder, Asks, Shown, Positive;
    var p := Complement(q.price);
    KalshiShelfRefines(tickers, es, t);
    KalshiBooksRefine(tickers, es, t, Other(side), p);
    if KLive(es, t) && IsLadder(ls, Run(tickers, START, es).shelf.held[AskKey(t, side)]) {
      var bids := SideOf(BookOf(Run(tickers, START, es).kalshi, t), Other(side));
      AsksShown(bids, q.price);
      LadderShows(ls, Asks(bids), q, LevelOf(bids, p));
    }
  }

  lemma AsksShown(bids: Book, p: Price)
    ensures Shown(Asks(bids), p) == Positive(LevelOf(bids, Complement(p)))
  {
    AsksExact(bids, p);
  }

  // A snapshot's bid at so many cents is an ask on the other side at a hundred less those.
  lemma SnapshotInCents(tickers: seq<string>, es: seq<Event>, t: string, side: Side, yes: seq<(int, real)>,
                        no: seq<(int, real)>, c: int, size: real, ls: seq<Quote>)
    requires t != "" && t in tickers
    ensures var held := Run(tickers, START, es + [KSnapshot(t, yes, no)]).shelf.held;
            && AskKey(t, side) in held
            && (IsLadder(ls, held[AskKey(t, side)]) ==>
                  (Quote(Price(10_000 * (100 - c)), size) in ls
                   <==> size > 0.0 && size == Listed(if side == Yes then no else yes, Price(10_000 * c))))
  {
    hide Run, IsLadder, Listed;
    var all, bid := es + [KSnapshot(t, yes, no)], Price(10_000 * c);
    assert all[..|all| - 1] == es;
    assert KLive(all, t);
    assert Overdraft(all, t, Other(side), bid) == 0.0;
    KalshiLadderIsReplay(tickers, all, t, side, ls, Quote(Price(10_000 * (100 - c)), size));
  }

  // And nothing is ever served between cents.
  lemma WholeCentsOnly(tickers: seq<string>, es: seq<Event>, t: string, side: Side, ls: seq<Quote>, q: Quote)
    requires t != "" && t in tickers && KLive(es, t) && q.price.micros % 10_000 != 0
    ensures var held := Run(tickers, START, es).shelf.held;
            AskKey(t, side) in held && (IsLadder(ls, held[AskKey(t, side)]) ==> q !in ls)
  {
    hide Run, IsLadder, KLive, Total, Overdraft;
    KalshiLadderIsReplay(tickers, es, t, side, ls, q);
    BetweenCents(es, t, Other(side), Price(1_000_000 - q.price.micros));
  }

  lemma {:induction false} BetweenCents(es: seq<Event>, t: string, side: Side, p: Price)
    requires p.micros % 10_000 != 0
    ensures Total(es, t, side, p) == 0.0 && Overdraft(es, t, side, p) == 0.0
  {
    if es != [] {
      var e := es[|es| - 1];
      BetweenCents(es[..|es| - 1], t, side, p);
      if e.KSnapshot? {
        NoneBetween(e.yes, p);
        NoneBetween(e.no, p);
      }
    }
  }

  lemma {:induction false} NoneBetween(ps: seq<(int, real)>, p: Price)
    requires p.micros % 10_000 != 0
    ensures Listed(ps, p) == 0.0
  {
    if ps != [] { NoneBetween(ps[..|ps| - 1], p); }
  }

  // The mirror's level is the venue's own size at every price exactly when no running
  // total went below zero since the last snapshot.
  lemma KalshiExactIff(tickers: seq<string>, es: seq<Event>, t: string, side: Side, p: Price)
    requires t != ""
    ensures LevelOf(SideOf(BookOf(Run(tickers, START, es).kalshi, t), side), p) == Total(es, t, side, p)
            <==> NeverOverdrawn(es, t, side, p)
  {
    KalshiBooksRefine(tickers, es, t, side, p);
    OverdraftZeroIff(es, t, side, p);
  }

  // Has this client disconnected since the last message about a ticker that was live then,
  // with nothing clearing the mirror since?
  function Stale(es: seq<Event>, t: string): bool {
    if es == [] then false
    else
      var init := es[..|es| - 1];
      match es[|es| - 1]
      case KSnapshot(u, _, _) => u != t && Stale(init, t)
      case KDelta(u, _, _, _) => u != t && Stale(init, t)
      case KDisconnect => KLive(init, t) || Stale(init, t)
      case PmDisconnect => false
      case _ => Stale(init, t)
  }

  ghost predicate StrayAgrees(f: Feed, t: string, live: bool, stale: bool) {
    && (KYes(t) in f.shelf.held <==> live || stale) && (KNo(t) in f.shelf.held <==> live || stale)
    && (live ==> !stale)
    && (live ==> f.shelf.held[KYes(t)] == Asks(BookOf(f.kalshi, t).no))
    && (live ==> f.shelf.held[KNo(t)] == Asks(BookOf(f.kalshi, t).yes))
  }

  lemma StrayStep(tickers: seq<string>, f: Feed, e: Event, t: string, live: bool, stale: bool)
    requires t != "" && t !in tickers && StrayAgrees(f, t, live, stale)
    ensures var gone, named := e.KDisconnect? || e.PmDisconnect?, (e.KSnapshot? || e.KDelta?) && e.ticker == t;
            StrayAgrees(Step(tickers, f, e), t, !gone && (named || live),
                        if e.PmDisconnect? || named then false else if e.KDisconnect? then live || stale else stale)
  {
    hide Asks, FromPairs, BumpSide, ApplyChanges;
    if e.PmChanges? { ChangesKeepKalshi(PmState(f.shelf, f.pm), e.changes); }
  }

  lemma {:induction false} StrayRefines(tickers: seq<string>, es: seq<Event>, t: string)
    requires t != "" && t !in tickers
    ensures StrayAgrees(Run(tickers, START, es), t, KLive(es, t), Stale(es, t))
  {
    hide Step, Asks;
    if es != [] {
      var init, e := es[..|es| - 1], es[|es| - 1];
      StrayRefines(tickers, init, t);
      StrayStep(tickers, Run(tickers, START, init), e, t, KLive(init, t), Stale(init, t));
    }
  }

  // For any ticker at all: the mirror serves what it should exactly when the ticker is
  // subscribed or has not been left behind by a disconnect.
  lemma ServedAsLiveIff(tickers: seq<string>, es: seq<Event>, t: string)
    requires t != ""
    ensures ShelfAgrees(Run(tickers, START, es), t, KLive(es, t)) <==> t in tickers || !Stale(es, t)
  {
    hide Run, Asks, KLive, Stale;
    if t in tickers { KalshiShelfRefines(tickers, es, t); } else { StrayRefines(tickers, es, t); }
  }

  lemma RunTwo(tickers: seq<string>, f: Feed, a: Event, b: Event)
    ensures Run(tickers, f, [a, b]) == Step(tickers, Step(tickers, f, a), b)
  {
    hide Step;
    assert [a, b][..1] == [a] && [a][..0] == [];
    assert Run(tickers, f, [a]) == Step(tickers, Run(tickers, f, []), a);
  }

  // A message about a ticker nobody subscribed to: its ladder outlives the disconnect.
  lemma StrayTickerStaysServed(t: string)
    requires t != ""
    ensures var f := Run([], START, [KSnapshot(t, [(40, 5.0)], []), KDisconnect]);
            KNo(t) in f.shelf.held && t !in f.kalshi
  {
    hide Run, Asks, FromPairs;
    RunTwo([], START, KSnapshot(t, [(40, 5.0)], []), KDisconnect);
    assert KeysOf([]) == {};
  }
}
