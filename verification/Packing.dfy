/** How much a batch can hold: disjoint flash ranges share one 1 MiB window. */
module Packing {
  import opened BatchFormat
  import opened Bytes

  /** The given number of integers from a first one on. */
  function Interval(from: int, size: nat): set<int> {
    if size == 0 then {} else Interval(from, size - 1) + {from + size - 1}
  }

  lemma {:induction false} IntervalElements(from: int, size: nat)
    ensures forall x :: x in Interval(from, size) <==> from <= x < from + size
    ensures |Interval(from, size)| == size
  {
    if size > 0 {
      IntervalElements(from, size - 1);
    }
  }

  /** The addresses a record's payload occupies. */
  function Cells(r: Record): set<int> { Interval(r.address, r.payloadSize) }

  function AllCells(rs: seq<Record>): set<int> {
    if rs == [] then {} else AllCells(rs[..|rs| - 1]) + Cells(rs[|rs| - 1])
  }

  lemma {:induction false} InAllCells(rs: seq<Record>, x: int)
    ensures x in AllCells(rs) <==> exists i :: 0 <= i < |rs| && x in Cells(rs[i])
  {
    hide Cells;
    if rs != [] {
      InAllCells(rs[..|rs| - 1], x);
    }
  }

  /** Pairwise disjoint ranges occupy as many cells as their sizes add up to. */
  lemma {:induction false} DisjointTotal(rs: seq<Record>)
    requires forall i, j | 0 <= i < j < |rs| :: Disjoint(rs[i], rs[j])
    ensures |AllCells(rs)| == Total(rs)
  {
    if rs != [] {
      var front, last := rs[..|rs| - 1], rs[|rs| - 1];
      DisjointTotal(front);
      IntervalElements(last.address, last.payloadSize);
      forall x | x in AllCells(front) ensures x !in Cells(last) {
        InAllCells(front, x);
        var i :| 0 <= i < |front| && x in Cells(front[i]);
        IntervalElements(front[i].address, front[i].payloadSize);
        assert Disjoint(rs[i], rs[|rs| - 1]);
      }
      assert AllCells(front) * Cells(last) == {};
    }
  }

  lemma SubsetSize(a: set<int>, b: set<int>)
    requires a <= b
    ensures |a| <= |b|
  {
    assert b == a + (b - a);
  }

  lemma {:induction false} TotalFromFront(rs: seq<Record>)
    requires rs != []
    ensures Total(rs) == rs[0].payloadSize + Total(rs[1..])
  {
    if |rs| > 1 {
      TotalFromFront(rs[..|rs| - 1]);
      assert rs[..|rs| - 1][1..] == rs[1..][..|rs| - 2];
    } else {
      assert rs[..0] == [] && rs[1..] == [];
    }
  }

  /** A batch is one option record followed by flash records only. */
  lemma BatchShape(file: seq<byte>, rs: seq<Record>)
    requires IsBatch(file, rs)
    ensures rs[0].kind == OptionBytes && FullOptions(file, rs[0])
    ensures forall i | 1 <= i < |rs| :: rs[i].kind == Flash
    ensures forall i, j | 1 <= i < j < |rs| :: Disjoint(rs[i], rs[j])
    ensures forall i | 0 <= i < |rs| :: Supported(rs[i])
  {
    hide FullOptions, Disjoint, Supported, Fields, TiledAt, HeaderOf, Record.RunFlags;
    forall i | 1 <= i < |rs| ensures rs[i].kind == Flash {
      assert rs[i].kind == OptionBytes ==> i == 0;
    }
    forall i | 0 <= i < |rs| ensures Supported(rs[i]) {
      assert Accepted(HeaderOf(file, rs[i]), rs[i]);
    }
  }

  lemma {:induction false} CountFlashAll(rs: seq<Record>)
    requires rs != [] && rs[0].kind == OptionBytes && forall i | 1 <= i < |rs| :: rs[i].kind == Flash
    ensures CountFlash(rs) == |rs| - 1
  {
    if |rs| > 1 {
      CountFlashAll(rs[..|rs| - 1]);
    } else {
      assert rs[..0] == [];
    }
  }

  lemma FlashInWindow(r: Record)
    requires Supported(r) && r.kind == Flash
    ensures Cells(r) <= Interval(FLASH_BASE, FLASH_SIZE)
  {
    hide Interval;
    IntervalSubset(r.address, r.payloadSize, FLASH_BASE, FLASH_SIZE);
  }

  lemma IntervalSubset(a: int, m: nat, b: int, n: nat)
    requires b <= a && a + m <= b + n
    ensures Interval(a, m) <= Interval(b, n)
  {
    IntervalElements(a, m);
    IntervalElements(b, n);
  }

  /** The flash payloads of a batch fit the chip together, so counting them cannot wrap
      and the programmer's cap on the image size turns no batch away. */
  lemma PackingBound(file: seq<byte>, rs: seq<Record>)
    requires IsBatch(file, rs)
    ensures Total(rs[1..]) <= FLASH_SIZE
    ensures Total(rs) == OPTION_SIZE + Total(rs[1..]) <= OPTION_SIZE + FLASH_SIZE
    ensures |file| <= FLASH_SIZE + OPTION_SIZE + MAX_RECORDS * HEADER_SIZE
    ensures CountFlash(rs) == |rs| - 1
  {
    hide Chain, Supported, Disjoint, Record.RunFlags, Cells, Interval, Accepted, Total, CountFlash;
    BatchShape(file, rs);
    var flash := rs[1..];
    assert forall i, j | 0 <= i < j < |flash| :: flash[i] == rs[i + 1] && flash[j] == rs[j + 1];
    DisjointTotal(flash);
    var window := Interval(FLASH_BASE, FLASH_SIZE);
    forall x | x in AllCells(flash) ensures x in window {
      InAllCells(flash, x);
      var i :| 0 <= i < |flash| && x in Cells(flash[i]);
      FlashInWindow(rs[i + 1]);
    }
    SubsetSize(AllCells(flash), window);
    IntervalElements(FLASH_BASE, FLASH_SIZE);
    TotalFromFront(rs);
    CountFlashAll(rs);
    BatchFileSize(file, rs);
    AtMostSixteen(file, rs);
  }

  lemma AtMostSixteen(file: seq<byte>, rs: seq<Record>)
    requires IsBatch(file, rs)
    ensures |rs| <= MAX_RECORDS
  {
    hide Tiled, AllAccepted, SameKindDisjoint, OptionsFirst;
  }
}
