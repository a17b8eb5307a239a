/** Four levels of tables, refined to a flat map from virtual pages to frames. */
module PageTables {
  import opened Paging

  type Pte = seq<Entry<nat>>
  type Pmd = seq<Entry<Pte>>
  type Pud = seq<Entry<Pmd>>
  type Pgd = seq<Entry<Pud>>

  // ---------- Walking ----------

  function WalkPmd(pmd: Pmd, path: Path): Option<nat> {
    match Access(pmd, path.pmd)
    case None => None
    case Some(pte) => Access(pte, path.pte)
  }

  function WalkPud(pud: Pud, path: Path): Option<nat> {
    match Access(pud, path.pud)
    case None => None
    case Some(pmd) => WalkPmd(pmd, path)
  }

  /** `page_table_walk`: the frame, if all four levels have an entry. */
  function Walk(pgd: Pgd, path: Path): Option<nat> {
    match Access(pgd, path.pgd)
    case None => None
    case Some(pud) => WalkPud(pud, path)
  }

  // ---------- Installing a page ----------

  /** Make sure the level has an entry for the address. */
  function Enter<T>(level: seq<Entry<T>>, vaddr: nat, blank: T): seq<Entry<T>> {
    if Access(level, vaddr).None? then Add(level, vaddr, blank) else level
  }

  function InstallPmd(pmd: Pmd, path: Path, frame: nat): Pmd {
    var level := Enter(pmd, path.pmd, []);
    match Access(level, path.pmd)
    case None => level
    case Some(pte) => Update(level, path.pmd, Enter(pte, path.pte, frame))
  }

  function InstallPud(pud: Pud, path: Path, frame: nat): Pud {
    var level := Enter(pud, path.pud, []);
    match Access(level, path.pud)
    case None => level
    case Some(pmd) => Update(level, path.pud, InstallPmd(pmd, path, frame))
  }

  /** The table part of `handle_page_fault`: missing levels are added on the way down, and a page that
      is already there keeps its frame. */
  function Install(pgd: Pgd, path: Path, frame: nat): Pgd {
    var level := Enter(pgd, path.pgd, []);
    match Access(level, path.pgd)
    case None => level
    case Some(pud) => Update(level, path.pgd, InstallPud(pud, path, frame))
  }

  // ---------- Well-formed tables ----------

  ghost predicate PmdOK(pmd: Pmd) {
    Proper(pmd) && forall i :: 0 <= i < |pmd| ==> Proper(pmd[i].item)
  }

  ghost predicate PudOK(pud: Pud) {
    Proper(pud) && forall i :: 0 <= i < |pud| ==> PmdOK(pud[i].item)
  }

  ghost predicate TableOK(pgd: Pgd) {
    Proper(pgd) && forall i :: 0 <= i < |pgd| ==> PudOK(pgd[i].item)
  }

  /** After `Enter` the address has its own entry, the old one or a blank one, and nothing else changed. */
  lemma EnterAdds<T>(level: seq<Entry<T>>, vaddr: nat, blank: T)
    requires Proper(level) && vaddr < FANOUT
    ensures var level' := Enter(level, vaddr, blank);
            && Proper(level') && (level' == level || level' == level + [Entry(vaddr, blank)])
            && Access(level', vaddr) == (if Access(level, vaddr).Some? then Access(level, vaddr) else Some(blank))
            && forall v :: v != vaddr ==> Access(level', v) == Access(level, v)
  {
    if Access(level, vaddr).None? {
      GuardNeverDrops(level, vaddr, blank);
      forall v ensures Access(level + [Entry(vaddr, blank)], v)
                       == if Access(level, v).Some? then Access(level, v)
                          else if vaddr == v then Some(blank)
                          else None {
        AccessAppended(level, Entry(vaddr, blank), v);
      }
    }
  }

  lemma UpdateChanges<T>(level: seq<Entry<T>>, vaddr: nat, item: T)
    requires Proper(level) && Access(level, vaddr).Some?
    ensures var level' := Update(level, vaddr, item);
            && Proper(level') && |level'| == |level|
            && (forall i :: 0 <= i < |level| ==> level'[i].item == item || level'[i].item == level[i].item)
            && Access(level', vaddr) == Some(item)
            && forall v :: v != vaddr ==> Access(level', v) == Access(level, v)
  {
    UpdateInPlace(level, vaddr, item);
    forall v ensures Access(Update(level, vaddr, item), v) == if v == vaddr then Some(item) else Access(level, v) {
      AccessUpdated(level, vaddr, item, v);
    }
  }

  lemma ItemIsOne<T>(level: seq<Entry<T>>, vaddr: nat)
    requires Access(level, vaddr).Some?
    ensures exists i :: 0 <= i < |level| && level[i].item == Access(level, vaddr).value
  {
    AccessFinds(level, vaddr);
    var i :| 0 <= i < |level| && level[i] == Entry(vaddr, Access(level, vaddr).value);
    assert level[i].item == Access(level, vaddr).value;
  }

  lemma EmptyTables()
    ensures Proper<nat>([]) && PmdOK([]) && PudOK([])
    ensures forall v :: Access<nat>([], v).None?
    ensures forall q :: WalkPmd([], q).None?
    ensures forall q :: WalkPud([], q).None?
  {
  }

  lemma InstallsInPmd(pmd: Pmd, path: Path, frame: nat)
    requires PmdOK(pmd) && PathOK(path)
    ensures PmdOK(InstallPmd(pmd, path, frame))
    ensures WalkPmd(InstallPmd(pmd, path, frame), path)
            == (if WalkPmd(pmd, path).Some? then WalkPmd(pmd, path) else Some(frame))
    ensures forall q: Path :: (q.pmd, q.pte) != (path.pmd, path.pte) ==>
              WalkPmd(InstallPmd(pmd, path, frame), q) == WalkPmd(pmd, q)
  {
    EmptyTables();
    hide Proper, Update, Access, Enter;
    var level := Enter(pmd, path.pmd, []);
    EnterAdds(pmd, path.pmd, []);
    ItemIsOne(level, path.pmd);
    var pte := Access(level, path.pmd).value;
    EnterAdds(pte, path.pte, frame);
    UpdateChanges(level, path.pmd, Enter(pte, path.pte, frame));
  }

  lemma InstallsInPud(pud: Pud, path: Path, frame: nat)
    requires PudOK(pud) && PathOK(path)
    ensures PudOK(InstallPud(pud, path, frame))
    ensures WalkPud(InstallPud(pud, path, frame), path)
            == (if WalkPud(pud, path).Some? then WalkPud(pud, path) else Some(frame))
    ensures forall q: Path :: (q.pud, q.pmd, q.pte) != (path.pud, path.pmd, path.pte) ==>
              WalkPud(InstallPud(pud, path, frame), q) == WalkPud(pud, q)
  {
    EmptyTables();
    hide Proper, PmdOK, Update, Access, Enter, WalkPmd, InstallPmd;
    var level := Enter(pud, path.pud, []);
    EnterAdds(pud, path.pud, []);
    ItemIsOne(level, path.pud);
    var pmd := Access(level, path.pud).value;
    InstallsInPmd(pmd, path, frame);
    UpdateChanges(level, path.pud, InstallPmd(pmd, path, frame));
  }

  /** Installing a page keeps the table well formed; the walk of that page finds its frame, the old one
      if there was one, and the walks of all other pages are unchanged. */
  lemma InstallsInTable(pgd: Pgd, path: Path, frame: nat)
    requires TableOK(pgd) && PathOK(path)
    ensures TableOK(Install(pgd, path, frame))
    ensures Walk(Install(pgd, path, frame), path) == (if Walk(pgd, path).Some? then Walk(pgd, path) else Some(frame))
    ensures forall q :: q != path ==> Walk(Install(pgd, path, frame), q) == Walk(pgd, q)
  {
    EmptyTables();
    hide Proper, PudOK, Update, Access, Enter, WalkPud, InstallPud;
    var level := Enter(pgd, path.pgd, []);
    EnterAdds(pgd, path.pgd, []);
    ItemIsOne(level, path.pgd);
    var pud := Access(level, path.pgd).value;
    InstallsInPud(pud, path, frame);
    UpdateChanges(level, path.pgd, InstallPud(pud, path, frame));
  }

  // ---------- The flat map ----------

  /** The table as a map from page numbers to frames. */
  ghost function Flat(pgd: Pgd): map<nat, nat> {
    map page: nat | 0 <= page < PAGES && Walk(pgd, PathOf(page)).Some? :: Walk(pgd, PathOf(page)).value
  }

  /** The four-level table refines the flat map. */
  lemma InstallRefinesMap(pgd: Pgd, page: nat, frame: nat)
    requires TableOK(pgd) && page < PAGES
    ensures var pgd' := Install(pgd, PathOf(page), frame);
            TableOK(pgd') && Flat(pgd') == (if page in Flat(pgd) then Flat(pgd) else Flat(pgd)[page := frame])
  {
    NumberOfPath(page);
    InstallsInTable(pgd, PathOf(page), frame);
    var pgd' := Install(pgd, PathOf(page), frame);
    hide Install, Walk, PathOf, Number, TableOK;
    forall other: nat | other < PAGES && other != page ensures Walk(pgd', PathOf(other)) == Walk(pgd, PathOf(other)) {
      NumberOfPath(other);
    }
  }

  /** Every level of a table stays within its 512 entries. */
  lemma LevelsFit(pgd: Pgd)
    requires TableOK(pgd)
    ensures |pgd| <= FANOUT
    ensures forall i :: 0 <= i < |pgd| ==> |pgd[i].item| <= FANOUT
    ensures forall i, j :: 0 <= i < |pgd| && 0 <= j < |pgd[i].item| ==> |pgd[i].item[j].item| <= FANOUT
    ensures forall i, j, k :: 0 <= i < |pgd| && 0 <= j < |pgd[i].item| && 0 <= k < |pgd[i].item[j].item| ==>
              |pgd[i].item[j].item[k].item| <= FANOUT
  {
    FitsLevel(pgd);
    forall i | 0 <= i < |pgd|
      ensures |pgd[i].item| <= FANOUT
      ensures forall j :: 0 <= j < |pgd[i].item| ==> |pgd[i].item[j].item| <= FANOUT
      ensures forall j, k :: 0 <= j < |pgd[i].item| && 0 <= k < |pgd[i].item[j].item| ==>
              |pgd[i].item[j].item[k].item| <= FANOUT
    {
      PudFits(pgd[i].item);
    }
  }

  lemma PudFits(pud: Pud)
    requires PudOK(pud)
    ensures |pud| <= FANOUT
    ensures forall j :: 0 <= j < |pud| ==> |pud[j].item| <= FANOUT
    ensures forall j, k :: 0 <= j < |pud| && 0 <= k < |pud[j].item| ==> |pud[j].item[k].item| <= FANOUT
  {
    FitsLevel(pud);
    forall j | 0 <= j < |pud|
      ensures |pud[j].item| <= FANOUT
      ensures forall k :: 0 <= k < |pud[j].item| ==> |pud[j].item[k].item| <= FANOUT
    {
      FitsLevel(pud[j].item);
      forall k | 0 <= k < |pud[j].item| ensures |pud[j].item[k].item| <= FANOUT {
        FitsLevel(pud[j].item[k].item);
      }
    }
  }

  // ---------- The table in memory ----------

  /** The list is searched from the front, as the range-for loops do. */
  method Find<T>(level: seq<Entry<T>>, vaddr: nat) returns (r: Option<T>)
    ensures r == Access(level, vaddr)
  {
    assert level[0..] == level;
    for i := 0 to |level|
      invariant Access(level, vaddr) == Access(level[i..], vaddr)
    {
      assert level[i..][0] == level[i] && level[i..][1..] == level[i + 1..];
      if level[i].vaddr == vaddr {
        return Some(level[i].item);
      }
    }
    return None;
  }

  method AddIfAbsent<T>(level: seq<Entry<T>>, vaddr: nat, blank: T) returns (r: seq<Entry<T>>)
    ensures r == Enter(level, vaddr, blank)
  {
    r := level;
    var there := Find(level, vaddr);
    if there.None? && |level| <= FANOUT {
      r := level + [Entry(vaddr, blank)];
    }
  }

  method DescendPmd(pmd: Pmd, path: Path, frame: nat) returns (r: Pmd)
    ensures r == InstallPmd(pmd, path, frame)
  {
    r := AddIfAbsent(pmd, path.pmd, []);
    var pte := Find(r, path.pmd);
    if pte.Some? {
      var pages := AddIfAbsent(pte.value, path.pte, frame);
      r := Update(r, path.pmd, pages);
    }
  }

  method DescendPud(pud: Pud, path: Path, frame: nat) returns (r: Pud)
    ensures r == InstallPud(pud, path, frame)
  {
    r := AddIfAbsent(pud, path.pud, []);
    var pmd := Find(r, path.pud);
    if pmd.Some? {
      var ptes := DescendPmd(pmd.value, path, frame);
      r := Update(r, path.pud, ptes);
    }
  }

  method DescendPgd(pgd: Pgd, path: Path, frame: nat) returns (r: Pgd)
    ensures r == Install(pgd, path, frame)
  {
    r := AddIfAbsent(pgd, path.pgd, []);
    var pud := Find(r, path.pgd);
    if pud.Some? {
      var pmds := DescendPud(pud.value, path, frame);
      r := Update(r, path.pgd, pmds);
    }
  }

  class PageTable {
    var root: Pgd

    ghost predicate Valid()
      reads this
    {
      TableOK(root)
    }

    ghost function Map(): map<nat, nat>
      reads this
    {
      Flat(root)
    }

    constructor ()
      ensures Valid() && Map() == map[]
    {
      root := [];
    }

    /** `page_table_walk`. */
    method PageTableWalk(vaddr: nat) returns (found: bool, frame: nat)
      ensures found <==> PageOf(vaddr) in Map()
      ensures found ==> frame == Map()[PageOf(vaddr)]
    {
      var (path, offset) := Split(vaddr);
      SplitJoins(vaddr);
      found, frame := false, 0;
      var pud := Find(root, path.pgd);
      if pud.Some? {
        var pmd := Find(pud.value, path.pud);
        if pmd.Some? {
          var pte := Find(pmd.value, path.pmd);
          if pte.Some? {
            var page := Find(pte.value, path.pte);
            if page.Some? {
              found, frame := true, page.value;
            }
          }
        }
      }
      assert Walk(root, path) == if found then Some(frame) else None;
    }

    /** The table part of `handle_page_fault`. */
    method AddPage(vaddr: nat, frame: nat)
      requires Valid()
      modifies this
      ensures Valid()
      ensures var page := PageOf(vaddr);
              Map() == if page in old(Map()) then old(Map()) else old(Map())[page := frame]
    {
      var (path, offset) := Split(vaddr);
      SplitJoins(vaddr);
      InstallRefinesMap(root, PageOf(vaddr), frame);
      root := DescendPgd(root, path, frame);
    }
  }
}
