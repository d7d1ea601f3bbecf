/** The file list on the screen: a window of a directory's sorted listing, refilled from a
    cache or from the card as the selection moves. */
module FileWindow {

  datatype Entry = Entry(name: string, path: string, isDir: bool, size: nat)

  /** The first row to show so that the selection is on screen; whole pages at a time. */
  function ScrollFor(selected: nat, scroll: nat, count: nat, rows: nat): (r: nat)
    requires 0 < rows && selected < count
    ensures OnScreen(selected, r, rows) && r < count
    ensures r == 0 || OnScreen(selected, scroll, rows) || r % rows == 0
  {
    if count <= rows then 0
    else if selected < scroll || selected >= scroll + rows then
      PageStart(selected, rows);
      selected / rows * rows
    else scroll
  }

  predicate OnScreen(selected: nat, scroll: nat, rows: nat) { scroll <= selected < scroll + rows }

  lemma PageStart(selected: nat, rows: nat)
    requires 0 < rows
    ensures OnScreen(selected, selected / rows * rows, rows) && (selected / rows * rows) % rows == 0
  {
    var q := selected / rows;
    assert selected == q * rows + selected % rows;
    Unique(q * rows, q, rows, 0);
  }

  lemma MulGe(d: int, b: int)
    requires d >= 1 && b > 0
    ensures d * b >= b
  {
    assert d * b == (d - 1) * b + b;
  }

  /** Quotient and remainder are determined by what they add up to. */
  lemma Unique(x: int, q: int, b: int, m: int)
    requires b > 0 && x == q * b + m && 0 <= m < b
    ensures x / b == q && x % b == m
  {
    var k := x / b;
    assert x == k * b + x % b;
    assert (k - q) * b == m - x % b;
    if k > q {
      MulGe(k - q, b);
    } else if k < q {
      MulGe(q - k, b);
    }
  }

  /** Remainder as the compiler computes it, rounding towards zero. */
  function Remainder(a: int, b: int): int
    requires b > 0
  {
    if a >= 0 then a % b else -((-a) % b)
  }

  /** Wrapping around a list with it is the mathematical remainder. */
  lemma WrapsAround(a: int, b: int)
    requires b > 0
    ensures a % b == if Remainder(a, b) < 0 then Remainder(a, b) + b else Remainder(a, b)
  {
    if a < 0 {
      var q, m := (-a) / b, (-a) % b;
      assert -a == q * b + m;
      if m == 0 {
        Unique(a, -q, b, 0);
      } else {
        Unique(a, -q - 1, b, b - m);
      }
    }
  }

  // ---- the list ---------------------------------------------------------------------------------------

  /** A loaded row and its place in the full listing. */
  datatype Row = Row(ordinal: nat, entry: Entry)

  /** A stretch of the listing as rows. */
  function RowsOf(listing: seq<Entry>, from: nat, to: nat): (r: seq<Row>)
    requires from <= to <= |listing|
    ensures |r| == to - from
  {
    seq(to - from, i requires 0 <= i < to - from => Row(from + i, listing[from + i]))
  }

  lemma NoRows(listing: seq<Entry>, from: nat)
    requires from <= |listing|
    ensures RowsOf(listing, from, from) == []
  {}

  lemma RowsMore(listing: seq<Entry>, from: nat, to: nat)
    requires from <= to < |listing|
    ensures RowsOf(listing, from, to + 1) == RowsOf(listing, from, to) + [Row(to, listing[to])]
  {}

  datatype Cache = NoCache | Cached(entries: seq<Entry>)

  class FileList {
    const capacity: nat           // rows the window can hold
    const rows: nat               // rows the page shows

    var selected: nat
    var scroll: nat
    var start: nat
    var window: seq<Row>
    var total: nat
    var cache: Cache

    constructor (capacity: nat, rows: nat)
      requires 0 < rows <= capacity
      ensures this.rows == rows && this.capacity == capacity && total == 0 && selected == 0
      ensures cache == NoCache && Shows([])
    {
      this.capacity, this.rows := capacity, rows;
      selected, scroll, start, total := 0, 0, 0, 0;
      window, cache := [], NoCache;
    }

    /** The window is a stretch of this listing, with the selection and every visible row in it. */
    ghost predicate Shows(listing: seq<Entry>)
      reads this
    {
      && 0 < rows <= capacity && total == |listing|
      && CacheRight(listing)
      && start + |window| <= total && window == RowsOf(listing, start, start + |window|)
      && (total > 0 ==> Placed() && VisibleLoaded())
    }

    /** The selection exists and is on screen; a list that fits starts at the top. */
    predicate Placed()
      reads this
    {
      selected < total && OnScreen(selected, scroll, rows) && scroll < total && (total <= rows ==> scroll == 0)
    }

    /** Every row of the page that exists is loaded. */
    predicate VisibleLoaded()
      reads this
    {
      total == 0 ||
      (scroll >= start && (if scroll + rows > total then total else scroll + rows) <= start + |window|)
    }

    /** While the host has the card, what is cached may be out of date. */
    predicate CacheRight(listing: seq<Entry>)
      reads this`cache
    {
      cache == NoCache || cache == Cached(listing)
    }

    method FillWindow(entries: seq<Entry>)
      requires 0 < rows <= capacity && CacheRight(entries)
      modifies this`selected, this`scroll, this`start, this`window, this`total
      ensures Shows(entries)
      ensures old(selected) < |entries| ==> selected == old(selected)
    {
      hide ScrollFor, RowsOf;
      var count := |entries|;
      if selected >= count && count > 0 {
        selected := count - 1;
      }
      if count == 0 {
        selected, scroll := 0, 0;
      } else {
        ScrollPlaces(selected, scroll, count, rows);
        scroll := ScrollFor(selected, scroll, count, rows);
      }
      var begin := scroll;
      if count > capacity && begin + capacity > count {
        begin := count - capacity;
      }
      start := begin;
      window := [];
      NoRows(entries, begin);
      var i := begin;
      while i < count && |window| < capacity
        invariant begin <= i <= count && |window| == i - begin <= capacity
        invariant window == RowsOf(entries, begin, i)
        modifies this`window
      {
        RowsMore(entries, begin, i);
        window := window + [Row(i, entries[i])];
        i := i + 1;
      }
      total := count;
    }

    /** Reads the directory again; nothing is loaded when that fails. */
    method Scan(readable: bool, listing: seq<Entry>)
      requires 0 < rows <= capacity
      modifies this`selected, this`scroll, this`start, this`window, this`total, this`cache
      ensures readable ==> Shows(listing) && cache == Cached(listing) && (old(selected) < |listing| ==> selected == old(selected))
      ensures !readable ==> total == 0 && window == [] && selected == old(selected)
    {
      cache := NoCache;
      window, start, total := [], scroll, 0;
      if !readable {
        return;
      }
      FillWindow(listing);
      cache := Cached(listing);
    }

    /** Makes sure the page is loaded, from the cache when there is one. */
    method Ensure(force: bool, host: bool, readable: bool, listing: seq<Entry>)
      requires 0 < rows <= capacity && total == |listing| && (total > 0 ==> Placed())
      requires !host ==> CacheRight(listing)
      requires start + |window| <= total && window == RowsOf(listing, start, start + |window|)
      modifies this`selected, this`scroll, this`start, this`window, this`total, this`cache
      ensures (if force || !old(VisibleLoaded()) then readable || (!force && !host && old(cache).Cached?) else old(CacheRight(listing))) ==>
        Shows(listing) && (listing != [] ==> selected == old(selected))
    {
      hide ScrollFor, RowsOf;
      if force || !VisibleLoaded() {
        var kept := selected;
        if !force && cache.Cached? && !host {
          FillWindow(cache.entries);
        } else {
          Scan(readable, listing);
        }
        if total > 0 && kept < total {
          selected := kept;
          ScrollStays(selected, scroll, total, rows);
          scroll := ScrollFor(selected, scroll, total, rows);
        }
      }
    }

    /** Moves the selection, around both ends of the list. */
    method Move(delta: int, host: bool, readable: bool, listing: seq<Entry>)
      requires Shows(listing)
      modifies this`selected, this`scroll, this`start, this`window, this`total, this`cache
      ensures listing == [] ==> Shows(listing) && selected == old(selected)
      ensures listing != [] && (readable || (!host && old(cache).Cached?)) ==>
        Shows(listing) && selected == (old(selected) + delta) % |listing|
    {
      hide ScrollFor, RowsOf;
      if total == 0 || delta == 0 {
        return;
      }
      var at := Remainder(selected + delta, total);
      WrapsAround(selected + delta, total);
      if at < 0 {
        at := at + total;
      }
      if at != selected {
        selected := at;
        ScrollPlaces(selected, scroll, total, rows);
        scroll := ScrollFor(selected, scroll, total, rows);
        Ensure(false, host, readable, listing);
      }
    }

    /** The file under the selection, looked up in the window by its place in the listing. */
    method Current(ghost listing: seq<Entry>) returns (found: bool, entry: Entry)
      requires Shows(listing)
      ensures found <==> listing != []
      ensures found ==> entry == listing[selected]
    {
      hide ScrollFor;
      var i := 0;
      while i < |window|
        invariant 0 <= i <= |window|
        invariant forall k | 0 <= k < i :: window[k].ordinal != selected
      {
        if window[i].ordinal == selected {
          return true, window[i].entry;
        }
        i := i + 1;
      }
      assert total > 0 ==> window[selected - start].ordinal == selected;
      return false, Entry("", "", false, 0);
    }

    /** A row of the page. */
    method VisibleRow(row: nat, ghost listing: seq<Entry>) returns (found: bool, entry: Entry)
      requires Shows(listing) && row < rows
      ensures found <==> scroll + row < |listing|
      ensures found ==> entry == listing[scroll + row]
    {
      var ordinal := scroll + row;
      if ordinal >= total || ordinal < start || ordinal >= start + |window| {
        return false, Entry("", "", false, 0);
      }
      return true, window[ordinal - start].entry;
    }
  }

  /** Any number of moves on an unchanged, readable directory add up. */
  method MoveAll(list: FileList, deltas: seq<int>, listing: seq<Entry>)
    requires list.Shows(listing) && listing != []
    modifies list
    ensures list.Shows(listing) && list.selected == (old(list.selected) + Sum(deltas)) % |listing|
  {
    hide FileList.Shows, Sum;
    SelectedExists(list, listing);
    var i := 0;
    ghost var from, n := list.selected, |listing|;
    SumMore(deltas, 0);
    Unique(from, 0, n, from);
    while i < |deltas|
      invariant 0 <= i <= |deltas| && list.Shows(listing)
      invariant list.selected == (from + Sum(deltas[..i])) % n
    {
      ghost var at := list.selected;
      list.Move(deltas[i], false, true, listing);
      NextSum(from, deltas, i, n, at, list.selected);
      i := i + 1;
    }
    assert deltas[..i] == deltas;
  }

  lemma SelectedExists(list: FileList, listing: seq<Entry>)
    requires list.Shows(listing) && listing != []
    ensures list.selected < |listing|
  {}

  lemma SumMore(deltas: seq<int>, i: nat)
    ensures Sum(deltas[..0]) == 0
    ensures i < |deltas| ==> Sum(deltas[..i + 1]) == Sum(deltas[..i]) + deltas[i]
  {
    if i < |deltas| {
      assert deltas[..i + 1][..i] == deltas[..i];
    }
  }

  lemma NextSum(from: int, deltas: seq<int>, i: nat, n: int, at: int, next: int)
    requires n > 0 && i < |deltas| && at == (from + Sum(deltas[..i])) % n && next == (at + deltas[i]) % n
    ensures next == (from + Sum(deltas[..i + 1])) % n
  {
    SumMore(deltas, i);
    AddDelta(from + Sum(deltas[..i]), deltas[i], n);
  }

  function Sum(deltas: seq<int>): int {
    if deltas == [] then 0 else Sum(deltas[..|deltas| - 1]) + deltas[|deltas| - 1]
  }

  lemma AddDelta(a: int, d: int, n: int)
    requires n > 0
    ensures (a % n + d) % n == (a + d) % n
  {
    var q, x := a / n, a % n + d;
    assert a == q * n + a % n;
    var k := x / n;
    assert x == k * n + x % n;
    assert a + d == (q + k) * n + x % n;
    Unique(a + d, q + k, n, x % n);
  }

  lemma ScrollPlaces(selected: nat, scroll: nat, count: nat, rows: nat)
    requires 0 < rows && selected < count
    ensures count <= rows ==> ScrollFor(selected, scroll, count, rows) == 0
  {}

  lemma ScrollStays(selected: nat, scroll: nat, count: nat, rows: nat)
    requires 0 < rows && selected < count && OnScreen(selected, scroll, rows) && (count <= rows ==> scroll == 0)
    ensures ScrollFor(selected, scroll, count, rows) == scroll
  {}
}
