/** The live book mirror: snapshots and increments from two venues, the ladders served
    from them, and the dirty set that tells the monitor what moved.

    Prices are whole millionths of a dollar, Kalshi's are whole cents, so the source's
    rounding of 1 - p to six decimals is exact. */
module BookMirror {
  import opened Wrappers

  datatype Price = Price(micros: int)

  datatype Quote = Quote(price: Price, size: real)

  type Book = map<Price, real>

  // Instruments: a Polymarket token, or one ask side of a Kalshi ticker.
  datatype Key = Token(id: string) | KYes(ticker: string) | KNo(ticker: string)

  // ------------------------------------------------------- ladders out of books

  ghost predicate StrictlyAscending(ls: seq<Quote>) {
    forall i, j :: 0 <= i < j < |ls| ==> ls[i].price.micros < ls[j].price.micros
  }

  // The sorted positive levels of a book, and nothing else.
  ghost predicate IsLadder(ls: seq<Quote>, m: Book) {
    && StrictlyAscending(ls)
    && forall q :: q in ls <==> q.price in m && m[q.price] == q.size && q.size > 0.0
  }

  function InsertQuote(q: Quote, ls: seq<Quote>): seq<Quote> {
    if ls == [] || q.price.micros <= ls[0].price.micros then [q] + ls else [ls[0]] + InsertQuote(q, ls[1..])
  }

  lemma {:induction false} InsertQuoteSorted(q: Quote, ls: seq<Quote>)
    requires StrictlyAscending(ls) && forall x :: x in ls ==> x.price != q.price
    ensures StrictlyAscending(InsertQuote(q, ls))
    ensures forall x :: x in InsertQuote(q, ls) <==> x == q || x in ls
  {
    if ls != [] && q.price.micros > ls[0].price.micros {
      InsertQuoteSorted(q, ls[1..]);
      var rest := InsertQuote(q, ls[1..]);
      assert InsertQuote(q, ls) == [ls[0]] + rest;
      forall j | 0 <= j < |rest| ensures ls[0].price.micros < rest[j].price.micros { assert rest[j] in rest; }
    }
  }

  // A ladder is determined by its book.
  lemma {:induction false} LadderUnique(a: seq<Quote>, b: seq<Quote>, m: Book)
    requires IsLadder(a, m) && IsLadder(b, m)
    ensures a == b
    decreases |a|
  {
    EmptyTogether(a, b, m);
    if a != [] {
      SameHead(a, b, m);
      TailLadder(a, m);
      TailLadder(b, m);
      LadderUnique(a[1..], b[1..], m - {a[0].price});
      assert a == [a[0]] + a[1..] && b == [b[0]] + b[1..];
    }
  }

  lemma EmptyTogether(a: seq<Quote>, b: seq<Quote>, m: Book)
    requires IsLadder(a, m) && IsLadder(b, m)
    ensures a == [] <==> b == []
  {
    if a != [] { assert a[0] in a; }
    if b != [] { assert b[0] in b; }
  }

  lemma SameHead(a: seq<Quote>, b: seq<Quote>, m: Book)
    requires IsLadder(a, m) && IsLadder(b, m) && a != [] && b != []
    ensures a[0] == b[0]
  {
    assert a[0] in a && b[0] in b;
    var i :| 0 <= i < |b| && b[i] == a[0];
    var j :| 0 <= j < |a| && a[j] == b[0];
  }

  lemma TailLadder(a: seq<Quote>, m: Book)
    requires IsLadder(a, m) && a != []
    ensures IsLadder(a[1..], m - {a[0].price})
  {
    forall q ensures q in a[1..] <==> (q in a && q.price != a[0].price) {
      if q in a && q.price != a[0].price {
        var i :| 0 <= i < |a| && a[i] == q;
        assert a[1..][i - 1] == q;
      }
      if q in a[1..] {
        var i :| 0 <= i < |a[1..]| && a[1..][i] == q;
        assert a[i + 1] == q;
      }
    }
  }

  // Sorts the positive levels of a book; the loop runs over its entries in any order.
  method SortedLevels(m: Book) returns (ls: seq<Quote>)
    ensures IsLadder(ls, m)
  {
    ls := [];
    var left := m.Keys;
    while left != {}
      invariant left <= m.Keys && StrictlyAscending(ls)
      invariant forall q :: q in ls <==> q.price in m && q.price !in left && m[q.price] == q.size && q.size > 0.0
      decreases |left|
    {
      var p :| p in left;
      if m[p] > 0.0 {
        InsertQuoteSorted(Quote(p, m[p]), ls);
        ls := InsertQuote(Quote(p, m[p]), ls);
      }
      left := left - {p};
    }
  }

  // ------------------------------------------------------------- Kalshi's two sides

  datatype Side = Yes | No

  datatype KBook = KBook(yes: Book, no: Book)

  function SideOf(b: KBook, side: Side): Book {
    match side
    case Yes => b.yes
    case No => b.no
  }

  function Cents(c: int): Price { Price(10_000 * c) }

  // An ask is a dollar less the opposite bid.
  function Complement(p: Price): Price { Price(1_000_000 - p.micros) }

  // The asks a bid book implies on the other side, positive sizes only.
  function Asks(bids: Book): Book { map p | p in bids && bids[p] > 0.0 :: Complement(p) := bids[p] }

  lemma AsksExact(bids: Book, q: Price)
    ensures q in Asks(bids) <==> Complement(q) in bids && bids[Complement(q)] > 0.0
    ensures q in Asks(bids) ==> Asks(bids)[q] == bids[Complement(q)]
  {
    assert Complement(Complement(q)) == q;
  }

  const NO_BOOK := KBook(map[], map[])

  // ------------------------------------------------------------------- messages

  // One change to a token's ask side; None when the price or size does not parse.
  datatype Change = Change(token: string, askSide: bool, level: Option<Quote>)

  datatype Event =
    | PmBook(token: string, asks: seq<Quote>)
    | PmChanges(changes: seq<Change>)
    | PmDisconnect
    | KSnapshot(ticker: string, yes: seq<(int, real)>, no: seq<(int, real)>)
    | KDelta(ticker: string, side: Side, cents: int, delta: real)
    | KDisconnect
    | Drain

  // A dict built from a list of levels: the last entry for a price wins.
  function FromQuotes(qs: seq<Quote>): Book {
    if qs == [] then map[] else FromQuotes(qs[..|qs| - 1])[qs[|qs| - 1].price := qs[|qs| - 1].size]
  }

  function FromPairs(ps: seq<(int, real)>): Book {
    if ps == [] then map[] else FromPairs(ps[..|ps| - 1])[Cents(ps[|ps| - 1].0) := ps[|ps| - 1].1]
  }

  function LevelOf(m: Book, p: Price): real { if p in m then m[p] else 0.0 }

  // An absolute size at a price; a non-positive one removes the level.
  function Put(m: Book, q: Quote): Book { if q.size <= 0.0 then m - {q.price} else m[q.price := q.size] }

  // A signed increment; a level at or below zero goes away.
  function Bump(m: Book, p: Price, delta: real): Book {
    var level := LevelOf(m, p) + delta;
    if level <= 0.0 then m - {p} else m[p := level]
  }

  function BumpSide(b: KBook, side: Side, p: Price, delta: real): KBook {
    match side
    case Yes => b.(yes := Bump(b.yes, p, delta))
    case No => b.(no := Bump(b.no, p, delta))
  }

  // ------------------------------------------------------------- the mirror object

  class Mirror {
    var asks: map<Key, seq<Quote>>
    var stamps: map<Key, real>
    var dirty: set<Key>
    ghost var held: map<Key, Book>      // the book each ladder was sorted from

    ghost predicate Valid()
      reads this
    {
      && asks.Keys == held.Keys == stamps.Keys
      && forall k :: k in asks ==> IsLadder(asks[k], held[k])
    }

    ghost function View(): Shelf
      reads this
    {
      Shelf(held, dirty)
    }

    constructor ()
      ensures Valid() && View() == Shelf(map[], {}) && stamps == map[]
    {
      asks, stamps, dirty, held := map[], map[], {}, map[];
    }

    method SetAsks(key: Key, book: Book, now: real)
      requires Valid()
      modifies this
      ensures Valid() && View() == Publish(old(View()), key, book)
      ensures stamps == old(stamps)[key := now]
    {
      var ladder := SortedLevels(book);
      asks, held := asks[key := ladder], held[key := book];
      stamps := stamps[key := now];
      dirty := dirty + {key};
    }

    method Drop(key: Key)
      requires Valid()
      modifies this
      ensures Valid() && View() == old(View()).(held := old(held) - {key})
      ensures stamps == old(stamps) - {key}
    {
      asks, stamps, held := asks - {key}, stamps - {key}, held - {key};
    }

    method Clear()
      requires Valid()
      modifies this
      ensures Valid() && View() == old(View()).(held := map[])
      ensures stamps == map[]
    {
      asks, stamps, held := map[], map[], map[];
    }

    method PopDirty() returns (d: set<Key>)
      requires Valid()
      modifies this
      ensures Valid() && View() == old(View()).(dirty := {})
      ensures d == old(dirty) && stamps == old(stamps)
    {
      d := dirty;
      dirty := {};
    }

    // The ladder if present and no older than maxAge, else the caller fetches its own.
    method GetAsks(key: Key, now: real, maxAge: real) returns (r: Option<seq<Quote>>)
      requires Valid()
      ensures r.Some? <==> key in held && now - stamps[key] <= maxAge
      ensures r.Some? ==> IsLadder(r.value, held[key])
    {
      if key !in stamps || now - stamps[key] > maxAge { return None; }
      r := Some(asks[key]);
    }
  }

  // What the mirror holds, as books, and what moved since the last drain.
  datatype Shelf = Shelf(held: map<Key, Book>, dirty: set<Key>)

  ghost function Publish(s: Shelf, key: Key, book: Book): Shelf {
    Shelf(s.held[key := book], s.dirty + {key})
  }
}
