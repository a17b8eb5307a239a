/** The four-level page table of one process: 48-bit virtual addresses, 512 entries per level, each
    level a growing list searched from the front (4-level paging, section 4.5 of the Intel 64 and
    IA-32 Architectures Software Developer's Manual, Volume 3A). */
module Paging {

  datatype Option<T> = None | Some(value: T)

  const PAGE := 0x1000
  const FANOUT := 0x200
  /** Page numbers have 36 bits, addresses 48. */
  const PAGES := 0x10_0000_0000
  const ADDRESSES := 0x1_0000_0000_0000

  // ---------- Splitting an address ----------

  datatype Path = Path(pgd: nat, pud: nat, pmd: nat, pte: nat)

  predicate PathOK(p: Path) {
    p.pgd < FANOUT && p.pud < FANOUT && p.pmd < FANOUT && p.pte < FANOUT
  }

  /** `split_vaddr`: mask and shift out nine bits per level; bits from 48 on are ignored. */
  function Split(vaddr: nat): (Path, nat) {
    (Path(vaddr / 0x80_0000_0000 % FANOUT, vaddr / 0x4000_0000 % FANOUT,
          vaddr / 0x20_0000 % FANOUT, vaddr / PAGE % FANOUT),
     vaddr % PAGE)
  }

  /** `get_page_addr`: bits 12 to 47. */
  function PageOf(addr: nat): nat {
    addr / PAGE % PAGES
  }

  function Number(p: Path): nat {
    ((p.pgd * FANOUT + p.pud) * FANOUT + p.pmd) * FANOUT + p.pte
  }

  /** The four nine-bit digits of a page number. */
  function PathOf(page: nat): Path {
    Path(page / FANOUT / FANOUT / FANOUT % FANOUT, page / FANOUT / FANOUT % FANOUT,
         page / FANOUT % FANOUT, page % FANOUT)
  }

  lemma Shifts(vaddr: nat)
    ensures vaddr / 0x20_0000 == vaddr / PAGE / FANOUT
    ensures vaddr / 0x4000_0000 == vaddr / 0x20_0000 / FANOUT
    ensures vaddr / 0x80_0000_0000 == vaddr / 0x4000_0000 / FANOUT
  {
  }

  lemma Peel36(x: nat)
    ensures x % PAGES % FANOUT == x % FANOUT && x % PAGES / FANOUT == x / FANOUT % 0x800_0000
  {
  }

  lemma Peel27(x: nat)
    ensures x % 0x800_0000 % FANOUT == x % FANOUT && x % 0x800_0000 / FANOUT == x / FANOUT % 0x4_0000
  {
  }

  lemma Peel18(x: nat)
    ensures x % 0x4_0000 % FANOUT == x % FANOUT && x % 0x4_0000 / FANOUT == x / FANOUT % FANOUT
  {
  }

  /** The bits of a page number above the 36th do not show in its path. */
  lemma LowDigits(page: nat)
    ensures PathOf(page % PAGES) == PathOf(page)
  {
    Peel36(page);
    Peel27(page / FANOUT);
    Peel18(page / FANOUT / FANOUT);
  }

  lemma NumberOfPath(page: nat)
    requires page < PAGES
    ensures PathOK(PathOf(page)) && Number(PathOf(page)) == page
  {
    Peel36(page);
    Peel27(page / FANOUT);
    Peel18(page / FANOUT / FANOUT);
  }

  lemma PathOfNumber(path: Path)
    requires PathOK(path)
    ensures Number(path) < PAGES && PathOf(Number(path)) == path
  {
    var upper := path.pgd * FANOUT + path.pud;
    var n := Number(path);
    assert n / FANOUT == upper * FANOUT + path.pmd;
    assert n / FANOUT / FANOUT == upper;
  }

  lemma OffsetSplit(vaddr: nat)
    ensures PageOf(vaddr) * PAGE + vaddr % PAGE == vaddr % ADDRESSES
  {
  }

  /** Every 48-bit address is its path and offset put back together. */
  lemma SplitJoins(vaddr: nat)
    ensures var (path, offset) := Split(vaddr);
            PathOK(path) && offset < PAGE && path == PathOf(PageOf(vaddr))
            && Number(path) == PageOf(vaddr) && offset == vaddr % PAGE
            && PageOf(vaddr) * PAGE + offset == vaddr % ADDRESSES
  {
    Shifts(vaddr);
    LowDigits(vaddr / PAGE);
    NumberOfPath(PageOf(vaddr));
    OffsetSplit(vaddr);
    hide Number;
  }

  lemma PageJoined(page: nat, offset: nat)
    requires page < PAGES && offset < PAGE
    ensures PageOf(page * PAGE + offset) == page && (page * PAGE + offset) % PAGE == offset
  {
  }

  /** Conversely every path and offset is the split of exactly one 48-bit address. */
  lemma JoinSplits(path: Path, offset: nat)
    requires PathOK(path) && offset < PAGE
    ensures Number(path) < PAGES && PathOf(Number(path)) == path
    ensures Split(Number(path) * PAGE + offset) == (path, offset)
  {
    PathOfNumber(path);
    hide Number, PathOf, PathOK, Split, PageOf;
    var n := Number(path);
    SplitJoins(n * PAGE + offset);
    PageJoined(n, offset);
  }

  // ---------- One level: a list searched from the front ----------

  datatype Entry<T> = Entry(vaddr: nat, item: T)

  /** `access_in_*`: the first entry with this address. */
  function Access<T>(level: seq<Entry<T>>, vaddr: nat): Option<T> {
    if level == [] then None
    else if level[0].vaddr == vaddr then Some(level[0].item)
    else Access(level[1..], vaddr)
  }

  /** `add_in_*`: append, unless the list is longer than a table should be. */
  function Add<T>(level: seq<Entry<T>>, vaddr: nat, item: T): seq<Entry<T>> {
    if |level| > FANOUT then level else level + [Entry(vaddr, item)]
  }

  /** Work on the entry that `access_in_*` returned. */
  function Update<T>(level: seq<Entry<T>>, vaddr: nat, item: T): seq<Entry<T>> {
    if level == [] then []
    else if level[0].vaddr == vaddr then [Entry(vaddr, item)] + level[1..]
    else [level[0]] + Update(level[1..], vaddr, item)
  }

  /** Different nine-bit addresses: such a list has room for at most 512. */
  ghost predicate Proper<T>(level: seq<Entry<T>>) {
    && (forall i :: 0 <= i < |level| ==> level[i].vaddr < FANOUT)
    && (forall i, j :: 0 <= i < j < |level| ==> level[i].vaddr != level[j].vaddr)
  }

  lemma {:induction false} AccessFinds<T>(level: seq<Entry<T>>, vaddr: nat)
    ensures Access(level, vaddr).None? <==> forall i :: 0 <= i < |level| ==> level[i].vaddr != vaddr
    ensures Access(level, vaddr).Some? ==>
            exists i :: 0 <= i < |level| && level[i] == Entry(vaddr, Access(level, vaddr).value)
    decreases |level|
  {
    if level != [] && level[0].vaddr != vaddr {
      AccessFinds(level[1..], vaddr);
      assert forall i :: 1 <= i < |level| ==> level[i] == level[1..][i - 1];
      if Access(level, vaddr).Some? {
        var i :| 0 <= i < |level[1..]| && level[1..][i] == Entry(vaddr, Access(level, vaddr).value);
        assert level[i + 1] == Entry(vaddr, Access(level, vaddr).value);
      }
    }
  }

  lemma {:induction false} AccessAppended<T>(level: seq<Entry<T>>, e: Entry<T>, vaddr: nat)
    ensures Access(level + [e], vaddr)
            == if Access(level, vaddr).Some? then Access(level, vaddr)
               else if e.vaddr == vaddr then Some(e.item)
               else None
    decreases |level|
  {
    if level == [] {
      assert level + [e] == [e];
    } else {
      assert (level + [e])[1..] == level[1..] + [e];
      AccessAppended(level[1..], e, vaddr);
    }
  }

  lemma {:induction false} AccessUpdated<T>(level: seq<Entry<T>>, key: nat, item: T, vaddr: nat)
    requires Access(level, key).Some?
    ensures Access(Update(level, key, item), vaddr) == if vaddr == key then Some(item) else Access(level, vaddr)
    decreases |level|
  {
    if level[0].vaddr == key {
      assert Update(level, key, item)[1..] == level[1..];
    } else {
      AccessUpdated(level[1..], key, item, vaddr);
      assert Update(level, key, item)[1..] == Update(level[1..], key, item);
    }
  }

  lemma {:induction false} UpdateInPlace<T>(level: seq<Entry<T>>, key: nat, item: T)
    requires Access(level, key).Some? && Proper(level)
    ensures |Update(level, key, item)| == |level|
    ensures forall i :: 0 <= i < |level| ==>
              Update(level, key, item)[i] == if level[i].vaddr == key then Entry(key, item) else level[i]
    decreases |level|
  {
    if level[0].vaddr != key {
      UpdateInPlace(level[1..], key, item);
    }
  }

  /** At most n different addresses below n. */
  lemma {:induction false} AtMost<T>(level: seq<Entry<T>>, n: nat)
    requires forall i :: 0 <= i < |level| ==> level[i].vaddr < n
    requires forall i, j :: 0 <= i < j < |level| ==> level[i].vaddr != level[j].vaddr
    ensures |level| <= n
    decreases n
  {
    if level == [] {
    } else if i :| 0 <= i < |level| && level[i].vaddr == n - 1 {
      AtMost(level[..i] + level[i + 1..], n - 1);
    } else {
      assert level[0].vaddr < n - 1;
      AtMost(level, n - 1);
    }
  }

  /** At most 512 different nine-bit addresses. */
  lemma FitsLevel<T>(level: seq<Entry<T>>)
    requires Proper(level)
    ensures |level| <= FANOUT
  {
    AtMost(level, FANOUT);
  }

  /** The size guard never drops an entry: a new address always finds its list short enough. */
  lemma GuardNeverDrops<T>(level: seq<Entry<T>>, vaddr: nat, item: T)
    requires Proper(level) && vaddr < FANOUT && Access(level, vaddr).None?
    ensures Add(level, vaddr, item) == level + [Entry(vaddr, item)] && Proper(Add(level, vaddr, item))
    ensures |level| < FANOUT
  {
    AccessFinds(level, vaddr);
    FitsLevel(level);
    FitsLevel(level + [Entry(vaddr, item)]);
  }
}
