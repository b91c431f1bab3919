/** The two WebSocket clients over one shared mirror, each proved against the step
    function of its messages. */
module WsClients {
  import opened BookMirror

  // ------------------------------------------------------------------ Polymarket

  datatype PmState = PmState(shelf: Shelf, books: map<string, Book>)

  ghost function ApplyChange(s: PmState, c: Change): PmState {
    if c.token == "" || c.token !in s.books || !c.askSide then s
    else if c.level.None? then
      PmState(s.shelf.(held := s.shelf.held - {Token(c.token)}), s.books - {c.token})
    else
      var book := Put(s.books[c.token], c.level.value);
      PmState(Publish(s.shelf, Token(c.token), book), s.books[c.token := book])
  }

  ghost function ApplyChanges(s: PmState, cs: seq<Change>): PmState {
    if cs == [] then s else ApplyChange(ApplyChanges(s, cs[..|cs| - 1]), cs[|cs| - 1])
  }

  ghost function PmStep(s: PmState, e: Event): PmState {
    match e
    case PmBook(token, asks) =>
      if token == "" then s
      else PmState(Publish(s.shelf, Token(token), FromQuotes(asks)), s.books[token := FromQuotes(asks)])
    case PmChanges(changes) => ApplyChanges(s, changes)
    case PmDisconnect => PmState(s.shelf.(held := map[]), map[])
    case _ => s
  }

  class PMWsClient {
    const mirror: Mirror
    var books: map<string, Book>

    ghost function View(): PmState
      reads this, mirror
    {
      PmState(mirror.View(), books)
    }

    constructor (mirror: Mirror)
      ensures this.mirror == mirror && books == map[]
    {
      this.mirror, books := mirror, map[];
    }

    method HandleMessage(e: Event, now: real)
      requires mirror.Valid() && (e.PmBook? || e.PmChanges?)
      modifies this, mirror
      ensures mirror.Valid() && View() == PmStep(old(View()), e)
    {
      match e
      case PmBook(token, asks) =>
        if token != "" {
          books := books[token := FromQuotes(asks)];
          mirror.SetAsks(Token(token), books[token], now);
        }
      case PmChanges(changes) =>
        assert changes[..0] == [];
        for i := 0 to |changes|
          invariant mirror.Valid() && View() == ApplyChanges(old(View()), changes[..i])
        {
          assert changes[..i + 1][..i] == changes[..i];
          var c := changes[i];
          if c.token == "" || c.token !in books { continue; }
          if !c.askSide { continue; }
          if c.level.None? {
            mirror.Drop(Token(c.token));
            books := books - {c.token};
            continue;
          }
          books := books[c.token := Put(books[c.token], c.level.value)];
          mirror.SetAsks(Token(c.token), books[c.token], now);
        }
        assert changes[..|changes|] == changes;
    }

    // The connection dropped: the whole mirror is cleared, Kalshi's ladders with it.
    method Disconnected()
      requires mirror.Valid()
      modifies this, mirror
      ensures mirror.Valid() && View() == PmStep(old(View()), PmDisconnect)
    {
      mirror.Clear();
      books := map[];
    }
  }

  // ---------------------------------------------------------------------- Kalshi

  datatype KState = KState(shelf: Shelf, books: map<string, KBook>)

  function BookOf(books: map<string, KBook>, ticker: string): KBook {
    if ticker in books then books[ticker] else NO_BOOK
  }

  // The ask ladders of both sides, each from the other side's bids.
  ghost function PublishBoth(s: Shelf, ticker: string, b: KBook): Shelf {
    Publish(Publish(s, KYes(ticker), Asks(b.no)), KNo(ticker), Asks(b.yes))
  }

  ghost function KeysOf(tickers: seq<string>): set<Key> {
    (set t | t in tickers :: KYes(t)) + (set t | t in tickers :: KNo(t))
  }

  ghost function KStep(tickers: seq<string>, s: KState, e: Event): KState {
    match e
    case KSnapshot(ticker, yes, no) =>
      if ticker == "" then s
      else
        var book := KBook(FromPairs(yes), FromPairs(no));
        KState(PublishBoth(s.shelf, ticker, book), s.books[ticker := book])
    case KDelta(ticker, side, cents, delta) =>
      if ticker == "" then s
      else
        var book := BumpSide(BookOf(s.books, ticker), side, Cents(cents), delta);
        KState(PublishBoth(s.shelf, ticker, book), s.books[ticker := book])
    case KDisconnect => KState(s.shelf.(held := s.shelf.held - KeysOf(tickers)), map[])
    case _ => s
  }

  class KalshiWsClient {
    const mirror: Mirror
    const tickers: seq<string>
    var books: map<string, KBook>

    ghost function View(): KState
      reads this, mirror
    {
      KState(mirror.View(), books)
    }

    constructor (mirror: Mirror, tickers: seq<string>)
      ensures this.mirror == mirror && this.tickers == tickers && books == map[]
    {
      this.mirror, this.tickers, books := mirror, tickers, map[];
    }

    method PublishTicker(ticker: string, now: real)
      requires mirror.Valid()
      modifies mirror
      ensures mirror.Valid() && mirror.View() == PublishBoth(old(mirror.View()), ticker, BookOf(books, ticker))
    {
      hide IsLadder, Asks;
      var b := BookOf(books, ticker);
      mirror.SetAsks(KYes(ticker), Asks(b.no), now);
      mirror.SetAsks(KNo(ticker), Asks(b.yes), now);
    }

    method HandleMessage(e: Event, now: real)
      requires mirror.Valid() && (e.KSnapshot? || e.KDelta?)
      modifies this, mirror
      ensures mirror.Valid() && View() == KStep(tickers, old(View()), e)
    {
      match e
      case KSnapshot(ticker, yes, no) =>
        if ticker != "" {
          books := books[ticker := KBook(FromPairs(yes), FromPairs(no))];
          PublishTicker(ticker, now);
        }
      case KDelta(ticker, side, cents, delta) =>
        if ticker != "" {
          var book := BookOf(books, ticker);
          books := books[ticker := BumpSide(book, side, Cents(cents), delta)];
          PublishTicker(ticker, now);
        }
    }

    // The connection dropped: this client's books go, and the ladders of its own tickers.
    method Disconnected()
      requires mirror.Valid()
      modifies this, mirror
      ensures mirror.Valid() && View() == KStep(tickers, old(View()), KDisconnect)
    {
      books := map[];
      for i := 0 to |tickers|
        invariant mirror.Valid() && books == map[]
        invariant mirror.View() == old(mirror.View()).(held := old(mirror.held) - KeysOf(tickers[..i]))
      {
        mirror.Drop(KYes(tickers[i]));
        mirror.Drop(KNo(tickers[i]));
        KeysOfSnoc(tickers, i);
        DropBoth(old(mirror.held), KeysOf(tickers[..i]), KYes(tickers[i]), KNo(tickers[i]));
      }
      assert tickers[..|tickers|] == tickers;
    }
  }

  lemma DropBoth(held: map<Key, Book>, gone: set<Key>, a: Key, b: Key)
    ensures held - gone - {a} - {b} == held - (gone + {a, b})
  {
  }

  lemma KeysOfSnoc(tickers: seq<string>, i: nat)
    requires i < |tickers|
    ensures KeysOf(tickers[..i + 1]) == KeysOf(tickers[..i]) + {KYes(tickers[i]), KNo(tickers[i])}
  {
    assert tickers[..i + 1] == tickers[..i] + [tickers[i]];
  }
}
