/** The monitor: which rate-limited pairs a sweep prices, and the episode bookkeeping that
    turns a stream of priced gaps into ledger rows.

    Keys are tracked one at a time: `Observe` is what one sweep or tick means to one key,
    and every method of `EpisodeMonitor` is proved against it for all keys at once. */
module Monitor {
  import opened Ladders
  import opened Wrappers

  // ----------------------------------------------------------------- the rotation

  // At most this many rate-limited pairs are priced in one sweep.
  const QUOTA := 15

  function Wrap(x: int, n: int): (r: int)
    requires n > 0
    ensures 0 <= r < n
  {
    x % n
  }

  // A watched, rate-limited pair. Several may share a Kalshi ticker.
  datatype WatchPair = WatchPair(pid: string, ktk: string)

  function Selected(us: seq<WatchPair>, off: nat): seq<WatchPair> {
    if |us| > QUOTA then seq(QUOTA, i requires 0 <= i < QUOTA => us[Wrap(off + i, |us|)]) else us
  }

  // Is the pair at position j priced by a sweep that starts at this offset?
  predicate PricedAt(n: nat, off: nat, j: int) {
    n <= QUOTA || exists i: nat :: i < QUOTA && Lands(n, off, i, j)
  }

  predicate Lands(n: nat, off: nat, i: nat, j: int) { n > 0 && Wrap(off + i, n) == j }

  function NextOffset(us: seq<WatchPair>, off: nat): nat {
    if |us| > QUOTA then Wrap(off + QUOTA, |us|) else off
  }

  function TickersOf(ps: seq<WatchPair>): set<string> { set p | p in ps :: p.ktk }

  // Tickers watched and rate-limited, and of no pair priced this sweep.
  function Deferred(us: seq<WatchPair>, off: nat): set<string> {
    TickersOf(us) - TickersOf(Selected(us, off))
  }

  function OffsetAfter(us: seq<WatchPair>, off: nat, sweeps: nat): nat {
    if sweeps == 0 then off else NextOffset(us, OffsetAfter(us, off, sweeps - 1))
  }

  // Sweeps that make one full round.
  function Round(n: nat): nat { (n + QUOTA - 1) / QUOTA }

  lemma NoSmallMultiple(n: int, d: int)
    requires n > 0 && d != 0
    ensures n * d >= n || n * d <= -n
  {
    if d >= 1 { assert n * d >= n; } else { assert n * d <= -n; }
  }

  lemma WrapIs(x: int, q: int, r: int, n: int)
    requires n > 0 && x == n * q + r && 0 <= r < n
    ensures Wrap(x, n) == r
  {
    var d := x / n - q;
    assert n * d == r - x % n;
    if d != 0 { NoSmallMultiple(n, d); }
  }

  lemma WrapSum(x: int, c: int, n: int)
    requires n > 0
    ensures Wrap(Wrap(x, n) + c, n) == Wrap(x + c, n)
  {
    var y := x % n + c;
    var q, r := y / n, y % n;
    assert x == n * (x / n) + x % n && y == n * q + r;
    assert n * (x / n + q) == n * (x / n) + n * q;
    WrapIs(x + c, x / n + q, r, n);
  }

  lemma {:induction false} OffsetAdvances(us: seq<WatchPair>, off: nat, sweeps: nat, c: int)
    requires |us| > QUOTA
    ensures Wrap(OffsetAfter(us, off, sweeps) + c, |us|) == Wrap(off + QUOTA * sweeps + c, |us|)
  {
    hide Wrap;
    if sweeps > 0 {
      var was := OffsetAfter(us, off, sweeps - 1);
      OffsetAdvances(us, off, sweeps - 1, QUOTA + c);
      WrapSum(was + QUOTA, c, |us|);
    }
  }

  // The pairs priced are those at the positions the sweep lands on.
  lemma SelectedIff(us: seq<WatchPair>, off: nat, p: WatchPair)
    ensures p in Selected(us, off) <==> exists j :: 0 <= j < |us| && us[j] == p && PricedAt(|us|, off, j)
  {
    hide Wrap;
    var sel := Selected(us, off);
    if |us| > QUOTA {
      if p in sel {
        var i :| 0 <= i < |sel| && sel[i] == p;
        assert Lands(|us|, off, i, Wrap(off + i, |us|));
      }
      if j :| 0 <= j < |us| && us[j] == p && PricedAt(|us|, off, j) {
        var i: nat :| i < QUOTA && Lands(|us|, off, i, j);
        assert sel[i] == p;
      }
    }
  }

  // A ticker is deferred when some pair has it and none that is priced does.
  lemma DeferredIff(us: seq<WatchPair>, off: nat, ktk: string)
    ensures ktk in Deferred(us, off) <==>
      (exists j :: 0 <= j < |us| && us[j].ktk == ktk)
      && forall j :: 0 <= j < |us| && PricedAt(|us|, off, j) ==> us[j].ktk != ktk
  {
    hide PricedAt, Selected;
    forall j | 0 <= j < |us| &&
      PricedAt(|us|, off, j) ensures us[j] in Selected(us, off) { SelectedIff(us, off, us[j]); }
    if ktk in TickersOf(Selected(us, off)) {
      var p :| p in Selected(us, off) && p.ktk == ktk;
      SelectedIff(us, off, p);
    }
    if ktk in TickersOf(us) {
      var p :| p in us && p.ktk == ktk;
    }
  }

  lemma Reaches(n: int, off: nat, j: nat)
    requires n > 0 && j < n
    ensures Wrap(off + Wrap(j - off, n), n) == j
  {
    WrapSum(j - off, off, n);
    WrapIs(j, 0, j, n);
  }

  // Fairness: with the watch list fixed, one round of sweeps prices the pair at every
  // position, from any offset the rotation may be at, whatever tickers pairs share.
  lemma RoundPricesAll(us: seq<WatchPair>, off: nat, j: nat)
    requires j < |us|
    ensures exists sweep :: 0 <= sweep < Round(|us|) && PricedAt(|us|, OffsetAfter(us, off, sweep), j)
  {
    hide Wrap, OffsetAfter;
    var n := |us|;
    if n <= QUOTA {
      assert PricedAt(n, OffsetAfter(us, off, 0), j);
    } else {
      var d := Wrap(j - off, n);
      Reaches(n, off, j);
      var sweep, i: nat := d / QUOTA, d % QUOTA;
      OffsetAdvances(us, off, sweep, i);
      assert Lands(n, OffsetAfter(us, off, sweep), i, j);
      assert PricedAt(n, OffsetAfter(us, off, sweep), j);
    }
  }

  // And no fewer will do: the pair just behind the offset waits for the last sweep.
  lemma RoundIsTight(us: seq<WatchPair>, off: nat, sweep: nat)
    requires |us| > QUOTA && sweep + 1 < Round(|us|)
    ensures !PricedAt(|us|, OffsetAfter(us, off, sweep), Wrap(off + |us| - 1, |us|))
  {
    hide Wrap, OffsetAfter;
    var n, at, last := |us|, OffsetAfter(us, off, sweep), Wrap(off + |us| - 1, |us|);
    forall i: nat | i < QUOTA ensures !Lands(n, at, i, last) {
      OffsetAdvances(us, off, sweep, i);
      Apart(n, off, QUOTA * sweep + i, n - 1);
    }
  }

  lemma Apart(n: int, off: nat, a: nat, b: nat)
    requires n > 0 && a < b < n
    ensures Wrap(off + a, n) != Wrap(off + b, n)
  {
    hide Wrap;
    WrapSum(off, a, n);
    WrapSum(off, b, n);
    WrapOnce(Wrap(off, n) + a, n);
    WrapOnce(Wrap(off, n) + b, n);
  }

  lemma WrapOnce(x: int, n: int)
    requires n > 0 && 0 <= x < n + n
    ensures Wrap(x, n) == if x < n then x else x - n
  {
    if x < n { WrapIs(x, 0, x, n); } else { WrapIs(x, 1, x - n, n); }
  }

  // ---------------------------------------------------------------- priced results

  datatype Priced = Priced(key: string, ktk: string, net: real, edge: real,
                           market: string, strategy: string, uncertain: bool)

  datatype Gate = Gate(minNet: real, minEdge: real, maxEdge: real)

  predicate Accepts(g: Gate, r: Priced) {
    r.net >= g.minNet && g.minEdge <= r.edge <= g.maxEdge
  }

  function KeyOf(r: Priced): string { if r.key != "" then r.key else r.ktk }

  // The accepted results of a sweep; the last one for a key wins.
  function Live(g: Gate, rs: seq<Priced>): map<string, Priced> {
    if rs == [] then map[]
    else
      var r := rs[|rs| - 1];
      if Accepts(g, r) then Live(g, rs[..|rs| - 1])[KeyOf(r) := r] else Live(g, rs[..|rs| - 1])
  }

  lemma {:induction false} LiveKeyed(g: Gate, rs: seq<Priced>)
    ensures forall k :: k in Live(g, rs) ==> KeyOf(Live(g, rs)[k]) == k && Accepts(g, Live(g, rs)[k])
  {
    if rs != [] { LiveKeyed(g, rs[..|rs| - 1]); }
  }

  // All results of a sweep or tick for one key, in order, that net enough at an edge that is
  // neither too thin nor implausible; a result without a key of its own goes by its ticker.
  function AcceptedFor(key: string, g: Gate, rs: seq<Priced>): seq<Priced> {
    if rs == [] then []
    else
      var r := rs[|rs| - 1];
      AcceptedFor(key, g, rs[..|rs| - 1]) + (
        if r.net >= g.minNet && r.edge >= g.minEdge && r.edge <= g.maxEdge
           && (if r.key == "" then r.ktk else r.key) == key then [r] else [])
  }

  lemma {:induction false} LiveIsLast(key: string, g: Gate, rs: seq<Priced>)
    ensures key in Live(g, rs) <==> AcceptedFor(key, g, rs) != []
    ensures key in Live(g, rs) ==> Live(g, rs)[key] == AcceptedFor(key, g, rs)[|AcceptedFor(key, g, rs)| - 1]
  {
    if rs != [] { LiveIsLast(key, g, rs[..|rs| - 1]); }
  }

  // What a sweep notes of a key is the most it accepted for it exactly when the last result
  // accepted is as good as every one before.
  lemma SweepNotesMostIff(key: string, g: Gate, rs: seq<Priced>)
    requires key in Live(g, rs)
    ensures var all := AcceptedFor(key, g, rs);
            && all != []
            && ((forall r :: r in all ==> r.net <= Live(g, rs)[key].net)
                <==> forall i :: 0 <= i < |all| - 1 ==> all[i].net <= all[|all| - 1].net)
  {
    LiveIsLast(key, g, rs);
    var all := AcceptedFor(key, g, rs);
    forall i | 0 <= i < |all| ensures all[i] in all {}
  }

  // -------------------------------------------------------------- episodes of one key

  datatype Episode = Episode(start: real, peakNet: real, peakEdge: real, ticks: nat,
                             market: string, ktk: string, strategy: string, uncertain: bool)

  datatype Row = Row(key: string, ktk: string, market: string, strategy: string, uncertain: bool,
                     peakNet: real, peakEdge: real, ticks: nat, seconds: real, stillOpen: bool)

  function Opened(r: Priced, now: real): Episode {
    Episode(now, r.net, r.edge, 1, r.market, r.ktk, r.strategy, r.uncertain)
  }

  function Updated(ep: Episode, r: Priced): Episode {
    ep.(peakNet := Max(ep.peakNet, r.net), peakEdge := Max(ep.peakEdge, r.edge), ticks := ep.ticks + 1)
  }

  function RowOf(key: string, ep: Episode, now: real, stillOpen: bool): Row {
    Row(key, if ep.ktk != "" then ep.ktk else key, ep.market, ep.strategy, ep.uncertain,
        ep.peakNet, ep.peakEdge, ep.ticks, now - ep.start, stillOpen)
  }

  // What happened to one key: a priced result, or a sweep without it.
  datatype Obs = Seen(r: Priced, now: real) | Missed(deferred: set<string>, now: real)

  datatype Track = Track(open: Option<Episode>, rows: seq<Row>, opens: seq<Priced>)

  const QUIET := Track(None, [], [])

  function Observe(key: string, k: Track, o: Obs): Track {
    match o
    case Seen(r, now) =>
      if k.open.None? then Track(Some(Opened(r, now)), k.rows, k.opens + [r])
      else k.(open := Some(Updated(k.open.value, r)))
    case Missed(deferred, now) =>
      if k.open.Some? && k.open.value.ktk !in deferred
      then Track(None, k.rows + [RowOf(key, k.open.value, now, false)], k.opens)
      else k
  }

  function ObserveAll(key: string, k: Track, h: seq<Obs>): Track {
    if h == [] then k else Observe(key, ObserveAll(key, k, h[..|h| - 1]), h[|h| - 1])
  }

  // The rows once what is still open has been written out too.
  function Flushed(key: string, k: Track, now: real): seq<Row> {
    k.rows + (if k.open.Some? then [RowOf(key, k.open.value, now, true)] else [])
  }

  // ------------------------------------------------------- the reference: spans of time

  // An episode opened for this ticker ends at a sweep that priced it and did not find it.
  predicate Ends(o: Obs, ktk: string) { o.Missed? && ktk !in o.deferred }

  function FirstSeen(h: seq<Obs>): (i: nat)
    ensures i <= |h| && (i < |h| ==> h[i].Seen?)
    ensures forall x :: 0 <= x < i ==> h[x].Missed?
  {
    if h == [] || h[0].Seen? then 0 else 1 + FirstSeen(h[1..])
  }

  function FirstEnd(h: seq<Obs>, ktk: string): (j: nat)
    ensures j <= |h| && (j < |h| ==> Ends(h[j], ktk))
    ensures forall x :: 0 <= x < j ==> !Ends(h[x], ktk)
  {
    if h == [] || Ends(h[0], ktk) then 0 else 1 + FirstEnd(h[1..], ktk)
  }

  function CountSeen(h: seq<Obs>): nat {
    if h == [] then 0 else CountSeen(h[..|h| - 1]) + (if h[|h| - 1].Seen? then 1 else 0)
  }

  predicate IsPeak(h: seq<Obs>, x: real, value: Priced -> real) {
    && (forall o :: o in h && o.Seen? ==> value(o.r) <= x)
    && (exists o :: o in h && o.Seen? && value(o.r) == x)
  }

  // A row says all there is to say about a span that begins with a priced result.
  ghost predicate Summarises(row: Row, key: string, span: seq<Obs>, end: real, stillOpen: bool)
    requires span != [] && span[0].Seen?
  {
    var first := span[0].r;
    && row.key == key && row.ktk == (if first.ktk != "" then first.ktk else key)
    && row.market == first.market && row.strategy == first.strategy && row.uncertain == first.uncertain
    && IsPeak(span, row.peakNet, (r: Priced) => r.net) && IsPeak(span, row.peakEdge, (r: Priced) => r.edge)
    && row.ticks == CountSeen(span) && row.seconds == end - span[0].now && row.stillOpen == stillOpen
  }

  // The rows are the episodes of the history: each runs from the first sight of the key to
  // the first sweep that priced its ticker and missed it, and summarises all in between.
  ghost predicate Accounts(rows: seq<Row>, key: string, h: seq<Obs>, flush: real)
    decreases |h|
  {
    var i := FirstSeen(h);
    if i == |h| then rows == []
    else
      var span := h[i..];
      var j := FirstEnd(span, span[0].r.ktk);
      if j == |span| then |rows| == 1 && Summarises(rows[0], key, span, flush, true)
      else
        && rows != []
        && Summarises(rows[0], key, span[..j], span[j].now, false)
        && Accounts(rows[1..], key, span[j + 1..], flush)
  }

  lemma {:induction false} ObserveConcat(key: string, k: Track, a: seq<Obs>, b: seq<Obs>)
    ensures ObserveAll(key, k, a + b) == ObserveAll(key, ObserveAll(key, k, a), b)
  {
    if b == [] {
      assert a + b == a;
    } else {
      var init := b[..|b| - 1];
      ObserveConcat(key, k, a, init);
      assert (a + b)[..|a + b| - 1] == a + init && (a + b)[|a + b| - 1] == b[|b| - 1];
    }
  }

  lemma {:induction false} QuietStays(key: string, k: Track, h: seq<Obs>)
    requires k.open.None? && forall x :: 0 <= x < |h| ==> h[x].Missed?
    ensures ObserveAll(key, k, h) == k
  {
    if h != [] { QuietStays(key, k, h[..|h| - 1]); }
  }

  lemma PeakGrows(h: seq<Obs>, x: real, o: Obs, value: Priced -> real)
    requires IsPeak(h, x, value)
    ensures IsPeak(h + [o], if o.Seen? then Max(x, value(o.r)) else x, value)
  {
    var top :| top in h && top.Seen? && value(top.r) == x;
    assert top in h + [o];
    assert o in h + [o];
  }

  lemma {:induction false} SpanStaysOpen(key: string, k: Track, span: seq<Obs>, end: real, stillOpen: bool)
    requires k.open.None? && span != [] && span[0].Seen?
    requires forall x :: 0 <= x < |span| ==> !Ends(span[x], span[0].r.ktk)
    ensures var t := ObserveAll(key, k, span);
            t.open.Some? && t.open.value.ktk == span[0].r.ktk && t.rows == k.rows && t.opens == k.opens + [span[0].r]
            && Summarises(RowOf(key, t.open.value, end, stillOpen), key, span, end, stillOpen)
  {
    hide IsPeak;
    var init, o := span[..|span| - 1], span[|span| - 1];
    assert span == init + [o];
    if init == [] {
      assert ObserveAll(key, k, []) == k;
      OnePeak(o);
      assert CountSeen(init) == 0;
    } else {
      SpanStaysOpen(key, k, init, end, stillOpen);
      var ep := ObserveAll(key, k, init).open.value;
      PeakGrows(init, ep.peakNet, o, (r: Priced) => r.net);
      PeakGrows(init, ep.peakEdge, o, (r: Priced) => r.edge);
    }
  }

  lemma OnePeak(o: Obs)
    requires o.Seen?
    ensures IsPeak([o], o.r.net, (r: Priced) => r.net) && IsPeak([o], o.r.edge, (r: Priced) => r.edge)
  {
    assert o in [o];
  }

  // Exact accounting: whatever was observed, the flushed rows are the episodes, in order.
  lemma {:induction false} RowsAreEpisodes(key: string, k: Track, h: seq<Obs>, flush: real)
    requires k.open.None?
    ensures var rows := Flushed(key, ObserveAll(key, k, h), flush);
            |k.rows| <= |rows| && rows[..|k.rows|] == k.rows && Accounts(rows[|k.rows|..], key, h, flush)
    decreases |h|
  {
    hide Summarises, ObserveAll, Accounts, FirstSeen, FirstEnd;
    var i := FirstSeen(h);
    assert h == h[..i] + h[i..];
    ObserveConcat(key, k, h[..i], h[i..]);
    QuietStays(key, k, h[..i]);
    var span := h[i..];
    if i == |h| {
      QuietStays(key, k, span);
      NoAccounts(key, h, flush);
    } else {
      var j := FirstEnd(span, span[0].r.ktk);
      var rows := Flushed(key, ObserveAll(key, k, h), flush);
      SpanRows(key, k, span, j, flush);
      if j < |span| {
        RowsAreEpisodes(key, ObserveAll(key, k, span[..j + 1]), span[j + 1..], flush);
        assert span == span[..j + 1] + span[j + 1..];
        ObserveConcat(key, k, span[..j + 1], span[j + 1..]);
        PrefixOfRows(rows, k.rows, ObserveAll(key, k, span[..j + 1]).rows);
      }
      AccountsBySpan(rows[|k.rows|..], key, h, flush);
    }
  }

  lemma NoAccounts(key: string, h: seq<Obs>, flush: real)
    requires FirstSeen(h) == |h|
    ensures Accounts([], key, h, flush)
  {
  }

  lemma AccountsBySpan(rows: seq<Row>, key: string, h: seq<Obs>, flush: real)
    requires FirstSeen(h) < |h| && rows != []
    requires var span := h[FirstSeen(h)..];
             var j := FirstEnd(span, span[0].r.ktk);
             if j == |span| then |rows| == 1 && Summarises(rows[0], key, span, flush, true)
             else && j > 0 && Summarises(rows[0], key, span[..j], span[j].now, false)
                  && Accounts(rows[1..], key, span[j + 1..], flush)
    ensures Accounts(rows, key, h, flush)
  {
    hide Summarises;
  }

  // One span from open to close, or to the end of the history.
  lemma SpanRows(key: string, k: Track, span: seq<Obs>, j: nat, flush: real)
    requires k.open.None? && span != [] && span[0].Seen? && j == FirstEnd(span, span[0].r.ktk)
    ensures j == |span| ==>
              var t := ObserveAll(key, k, span);
              && t.open.Some? && t.rows == k.rows
              && Summarises(RowOf(key, t.open.value, flush, true), key, span, flush, true)
    ensures j < |span| ==>
              var t := ObserveAll(key, k, span[..j + 1]);
              j > 0 && t.open.None? && |t.rows| == |k.rows| + 1 && t.rows[..|k.rows|] == k.rows
              && Summarises(t.rows[|k.rows|], key, span[..j], span[j].now, false)
  {
    hide Summarises;
    if j == |span| {
      SpanStaysOpen(key, k, span, flush, true);
    } else {
      SpanStaysOpen(key, k, span[..j], span[j].now, false);
      assert span[..j + 1][..j] == span[..j];
    }
  }

  lemma PrefixOfRows(rows: seq<Row>, before: seq<Row>, mid: seq<Row>)
    requires |mid| == |before| + 1 && mid[..|before|] == before && |mid| <= |rows| && rows[..|mid|] == mid
    ensures rows[..|before|] == before && rows[|before|] == mid[|before|] && rows[|before|..][1..] == rows[|mid|..]
  {
  }

  // One row for each OPEN line.
  lemma {:induction false} OneRowPerOpening(key: string, h: seq<Obs>, flush: real)
    ensures |Flushed(key, ObserveAll(key, QUIET, h), flush)| == |ObserveAll(key, QUIET, h).opens|
  {
    if h != [] { OneRowPerOpening(key, h[..|h| - 1], flush); }
  }
}
