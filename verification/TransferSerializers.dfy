// PickingSerializer and SaleTransferSerializer of integration/tools.py: the pickings are
// objects that the squash loop changes in place.
module TransferSerializers {
  import opened Transfers

  predicate Distinct<T(==)>(s: seq<T>) {
    forall i, j :: 0 <= i < j < |s| ==> s[i] != s[j]
  }

  // Line k is chosen for its id: no line of that id has a greater quantity, and no later
  // one the same.
  predicate IsBest(lines: seq<Line>, k: nat) {
    && k < |lines|
    && forall m :: 0 <= m < |lines| && lines[m].externalId == lines[k].externalId ==>
         lines[m].GetQty() < lines[k].GetQty() || (lines[m].GetQty() == lines[k].GetQty() && m <= k)
  }

  ghost predicate IsBestLine(lines: seq<Line>, line: Line) {
    exists k: nat :: IsBest(lines, k) && lines[k] == line
  }

  // No line of the same id that is no kit has more done.
  ghost predicate HasMostDone(lines: seq<Line>, line: Line) {
    line in lines &&
    forall m :: m in lines && m.externalId == line.externalId && !m.isKit ==> m.qtyDone <= line.qtyDone
  }

  lemma BestHasMostDone(lines: seq<Line>, line: Line)
    requires IsBestLine(lines, line) && !line.isKit
    ensures HasMostDone(lines, line)
  {
    var k: nat :| IsBest(lines, k) && lines[k] == line;
    forall m | m in lines && m.externalId == line.externalId && !m.isKit ensures m.qtyDone <= line.qtyDone {
      var i :| 0 <= i < |lines| && lines[i] == m;
    }
  }

  function IdList(lines: seq<Line>): seq<ExternalId> {
    seq(|lines|, i requires 0 <= i < |lines| => lines[i].externalId)
  }

  // The external ids in the order in which they first occur.
  function GroupIds(lines: seq<Line>): seq<ExternalId> {
    if lines == [] then []
    else
      var front, id := GroupIds(lines[..|lines| - 1]), lines[|lines| - 1].externalId;
      if id in front then front else front + [id]
  }

  lemma IdListMembers(lines: seq<Line>, id: ExternalId)
    ensures id in IdList(lines) <==> id in Ids(lines)
  {
    if id in Ids(lines) {
      var k :| 0 <= k < |lines| && lines[k].externalId == id;
      assert IdList(lines)[k] == id;
    }
    if id in IdList(lines) {
      var k :| 0 <= k < |IdList(lines)| && IdList(lines)[k] == id;
      assert lines[k] in lines;
    }
  }

  lemma NextGroup(approved: seq<Line>, lines: seq<Line>, line: Line, best: Line)
    requires IdList(approved) == GroupIds(lines) && best.externalId == line.externalId
    ensures line.externalId in Ids(approved) <==> line.externalId in GroupIds(lines)
    ensures GroupIds(lines + [line]) ==
            if line.externalId in Ids(approved) then IdList(approved) else IdList(approved + [best])
  {
    assert (lines + [line])[..|lines|] == lines;
    assert IdList(approved + [best]) == IdList(approved) + [best.externalId];
    IdListMembers(approved, line.externalId);
  }

  lemma NothingGrouped()
    ensures DistinctIds([]) && Ids([]) == {} && IdList([]) == GroupIds([]) == []
  {
  }

  lemma IdsAppend(lines: seq<Line>, line: Line)
    ensures Ids(lines + [line]) == Ids(lines) + {line.externalId}
    ensures DistinctIds(lines) && line.externalId !in Ids(lines) ==> DistinctIds(lines + [line])
  {
    assert line in lines + [line];
    forall i | 0 <= i < |lines| ensures lines[i].externalId in Ids(lines) {
      assert lines[i] in lines;
    }
  }

  lemma FirstOfId(lines: seq<Line>, i: nat)
    requires i < |lines| && lines[i].externalId !in Ids(lines[..i])
    ensures forall j :: 0 <= j < i ==> lines[j].externalId != lines[i].externalId
  {
    forall j | 0 <= j < i ensures lines[j].externalId in Ids(lines[..i]) {
      assert lines[..i][j] in lines[..i];
    }
  }

  // The ids of the approved lines are those of the given lines, each once.
  ghost predicate Grouped(lines: seq<Line>, approved: seq<Line>) {
    DistinctIds(approved) && Ids(approved) == Ids(lines) && IdList(approved) == GroupIds(lines)
  }

  lemma GroupedSkips(lines: seq<Line>, approved: seq<Line>, line: Line)
    requires Grouped(lines, approved)
    ensures line.externalId in Ids(approved) ==> Grouped(lines + [line], approved)
  {
    hide DistinctIds;
    IdsAppend(lines, line);
    NextGroup(approved, lines, line, line);
  }

  lemma GroupedGrows(lines: seq<Line>, approved: seq<Line>, line: Line, best: Line)
    requires Grouped(lines, approved) && best.externalId == line.externalId && line.externalId !in Ids(approved)
    ensures Grouped(lines + [line], approved + [best])
  {
    IdsAppend(lines, line);
    IdsAppend(approved, best);
    NextGroup(approved, lines, line, best);
  }

  class PickingSerializer {
    const erpId: int
    const isBackorder: bool
    const isDropship: bool
    const lines: seq<Line>
    var sequence: nat
    var tracking: seq<Token>
    var approved: seq<Line>

    function View(): Picking
      reads this
    {
      Picking(approved, tracking)
    }

    constructor (erpId: int, isBackorder: bool, isDropship: bool, tracking: seq<Token>, lines: seq<Line>)
      ensures this.erpId == erpId && this.isBackorder == isBackorder && this.isDropship == isDropship
      ensures this.tracking == tracking && this.lines == lines
      ensures DistinctIds(approved) && Ids(approved) == Ids(lines)
      ensures IdList(approved) == GroupIds(lines)
      ensures forall line :: line in approved ==> IsBestLine(lines, line)
      ensures forall line :: line in approved && !line.isKit ==> HasMostDone(lines, line)
    {
      this.erpId, this.isBackorder, this.isDropship := erpId, isBackorder, isDropship;
      this.tracking, this.lines := tracking, lines;
      sequence, approved := 0, [];
      new;
      ApproveLines();
    }

    // _approve_lines(): one line per external id, in the order of first occurrence.
    method ApproveLines()
      requires approved == []
      modifies this`approved
      ensures DistinctIds(approved) && Ids(approved) == Ids(lines)
      ensures IdList(approved) == GroupIds(lines)
      ensures forall line :: line in approved ==> IsBestLine(lines, line)
      ensures forall line :: line in approved && !line.isKit ==> HasMostDone(lines, line)
    {
      hide IsBestLine, Ids, DistinctIds, IdList, GroupIds;
      NothingGrouped();
      var i := 0;
      while i < |lines|
        invariant 0 <= i <= |lines| && Grouped(lines[..i], approved)
        invariant forall line :: line in approved ==> IsBestLine(lines, line)
      {
        assert lines[..i + 1] == lines[..i] + [lines[i]];
        GroupedSkips(lines[..i], approved, lines[i]);
        if lines[i].externalId !in Ids(approved) {
          FirstOfId(lines, i);
          var best := BestLine(i);
          GroupedGrows(lines[..i], approved, lines[i], best);
          approved := approved + [best];
        }
        i := i + 1;
      }
      assert lines[..i] == lines;
      forall line | line in approved && !line.isKit ensures HasMostDone(lines, line) {
        BestHasMostDone(lines, line);
      }
    }

    // sorted(group, key=get_qty)[-1], for the group that line `first` opens
    method BestLine(first: nat) returns (best: Line)
      requires first < |lines|
      requires forall j :: 0 <= j < first ==> lines[j].externalId != lines[first].externalId
      ensures best.externalId == lines[first].externalId && IsBestLine(lines, best)
    {
      var id := lines[first].externalId;
      var k := first;
      var m := first + 1;
      while m < |lines|
        invariant first <= k < m <= |lines| && lines[k].externalId == id
        invariant forall j :: 0 <= j < m && lines[j].externalId == id ==>
            lines[j].GetQty() < lines[k].GetQty() || (lines[j].GetQty() == lines[k].GetQty() && j <= k)
      {
        if lines[m].externalId == id && lines[m].GetQty() >= lines[k].GetQty() {
          k := m;
        }
        m := m + 1;
      }
      assert IsBest(lines, k);
      best := lines[k];
    }

    // _drop_lines()
    method DropLines(ids: set<ExternalId>)
      modifies this`approved
      ensures approved == Drop(old(approved), ids)
    {
      var kept: seq<Line> := [];
      var i := 0;
      while i < |approved|
        invariant 0 <= i <= |approved| && approved == old(approved)
        invariant kept + Drop(approved[i..], ids) == Drop(approved, ids)
      {
        assert approved[i..] == [approved[i]] + approved[i + 1..];
        if approved[i].externalId !in ids { kept := kept + [approved[i]]; }
        i := i + 1;
      }
      approved := kept;
    }

    // _extend_tracking()
    method ExtendTracking(ext: seq<Token>)
      modifies this`tracking
      ensures tracking == old(tracking) + ext
      ensures multiset(tracking) == multiset(old(tracking)) + multiset(ext)
    {
      tracking := tracking + ext;
    }
  }

  // Transfers, backorders, dropships, and those that are both.
  function Rank(p: PickingSerializer): nat {
    if !p.isDropship && !p.isBackorder then 0
    else if !p.isDropship then 1
    else if !p.isBackorder then 2
    else 3
  }

  ghost predicate SortedByErpId(s: seq<PickingSerializer>) {
    forall i, j :: 0 <= i < j < |s| ==> s[i].erpId <= s[j].erpId
  }

  // Dropships come after the others, then backorders after the others, then by id.
  predicate Precedes(p: PickingSerializer, q: PickingSerializer) {
    if p.isDropship != q.isDropship then q.isDropship
    else if p.isBackorder != q.isBackorder then q.isBackorder
    else p.erpId <= q.erpId
  }

  ghost predicate Arranged(s: seq<PickingSerializer>) {
    forall i, j :: 0 <= i < j < |s| ==> Precedes(s[i], s[j])
  }

  // One of the four sorted selections of the reversed list.
  method SortedSelection(list: seq<PickingSerializer>, rank: nat) returns (r: seq<PickingSerializer>)
    requires Distinct(list)
    ensures Distinct(r) && SortedByErpId(r)
    ensures forall p :: p in r <==> p in list && Rank(p) == rank
  {
    r := [];
    var i := |list|;
    while i > 0
      invariant 0 <= i <= |list| && Distinct(r) && SortedByErpId(r)
      invariant forall p :: p in r <==> p in list[i..] && Rank(p) == rank
    {
      i := i - 1;
      assert list[i..] == [list[i]] + list[i + 1..];
      assert list[i] !in list[i + 1..];
      if Rank(list[i]) == rank {
        var k := |r|;
        while k > 0 && r[k - 1].erpId > list[i].erpId
          invariant 0 <= k <= |r|
          invariant forall m :: k <= m < |r| ==> r[m].erpId > list[i].erpId
        {
          k := k - 1;
        }
        InsertKeepsOrder(r, list[i], k);
        r := InsertAt(r, list[i], k);
      }
    }
  }

  function InsertAt(s: seq<PickingSerializer>, p: PickingSerializer, k: nat): seq<PickingSerializer>
    requires k <= |s|
  {
    s[..k] + [p] + s[k..]
  }

  lemma InsertKeepsOrder(s: seq<PickingSerializer>, p: PickingSerializer, k: nat)
    requires k <= |s| && Distinct(s) && p !in s && SortedByErpId(s)
    requires k > 0 ==> s[k - 1].erpId <= p.erpId
    requires forall m :: k <= m < |s| ==> s[m].erpId > p.erpId
    ensures Distinct(InsertAt(s, p, k)) && SortedByErpId(InsertAt(s, p, k))
    ensures forall q :: q in InsertAt(s, p, k) <==> q in s || q == p
  {
    var r := InsertAt(s, p, k);
    forall i | 0 <= i < k ensures s[i].erpId <= p.erpId {
      if i < k - 1 { assert s[i].erpId <= s[k - 1].erpId; }
    }
    forall i | 0 <= i < |r| ensures r[i] == if i < k then s[i] else if i == k then p else s[i - 1] {
    }
    forall i | 0 <= i < |s| ensures s[i] in r {
      assert s[i] == r[if i < k then i else i + 1];
    }
    assert r[k] == p;
  }

  // transfers + backorders + dropships + mixed
  method Arrange(list: seq<PickingSerializer>) returns (all: seq<PickingSerializer>)
    requires Distinct(list)
    ensures Distinct(all) && Arranged(all)
    ensures forall p :: p in all <==> p in list
  {
    all := [];
    var rank := 0;
    while rank < 4
      invariant 0 <= rank <= 4 && Distinct(all) && Arranged(all)
      invariant forall p :: p in all <==> p in list && Rank(p) < rank
    {
      var selection := SortedSelection(list, rank);
      JoinArranged(all, selection, rank);
      all := all + selection;
      rank := rank + 1;
    }
  }

  lemma JoinArranged(a: seq<PickingSerializer>, b: seq<PickingSerializer>, rank: nat)
    requires Distinct(a) && Arranged(a) && Distinct(b) && SortedByErpId(b)
    requires (forall p :: p in a ==> Rank(p) < rank) && (forall p :: p in b ==> Rank(p) == rank)
    ensures Distinct(a + b) && Arranged(a + b)
  {
    forall i | 0 <= i < |a| ensures Rank(a[i]) < rank {
      assert a[i] in a;
    }
    forall i | 0 <= i < |b| ensures Rank(b[i]) == rank {
      assert b[i] in b;
    }
  }

  class SaleTransferSerializer {
    var pickings: seq<PickingSerializer>

    // The sequence of each picking is its place in the list.
    ghost predicate Valid()
      reads this, pickings
    {
      && Distinct(pickings)
      && forall i :: 0 <= i < |pickings| ==> pickings[i].sequence == i + 1
    }

    ghost function Views(): seq<Picking>
      reads this, pickings
    {
      seq(|pickings|, i requires 0 <= i < |pickings| reads this, pickings => pickings[i].View())
    }

    // __init__() and _initial_setup()
    constructor (list: seq<PickingSerializer>)
      requires Distinct(list)
      modifies list
      ensures Valid() && Arranged(pickings)
      ensures forall p :: p in pickings <==> p in list
      ensures forall p :: p in list ==> p.View() == old(p.View())
    {
      pickings := [];
      new;
      var all := Arrange(list);
      pickings := all;
      var i := 0;
      while i < |all|
        invariant 0 <= i <= |all| && pickings == all
        invariant forall k :: 0 <= k < i ==> all[k].sequence == k + 1
        invariant forall p :: p in list ==> p.View() == old(p.View())
      {
        assert all[i] in all;
        all[i].sequence := i + 1;
        i := i + 1;
      }
    }

    // _drop_duplicated_kit_lines(): kit ids that another picking has as well.
    method DropDuplicatedKitLines(picking: PickingSerializer, ghost i: nat)
      requires Valid() && i < |pickings| && pickings[i] == picking
      modifies picking`approved
      ensures picking.approved ==
        var lines := old(picking.approved); Drop(lines, KitIds(lines) * KitsElsewhere(old(Views()), i))
    {
      ghost var ps := Views();
      var elsewhere: set<ExternalId> := {};
      var k := 0;
      while k < |pickings|
        invariant 0 <= k <= |pickings| && Views() == ps && picking.approved == old(picking.approved)
        invariant elsewhere == KitsAmong(ps, i, k)
      {
        AmongGrows(ps, i, k);
        assert ps[k] == pickings[k].View();
        if pickings[k].sequence != picking.sequence {
          elsewhere := elsewhere + KitIds(pickings[k].approved);
        }
        k := k + 1;
      }
      picking.DropLines(KitIds(picking.approved) * elsewhere);
    }

    // _drop_duplicated_done_lines(): unfinished ids that another picking has finished.
    method DropDuplicatedDoneLines(picking: PickingSerializer, ghost i: nat)
      requires Valid() && i < |pickings| && pickings[i] == picking
      modifies picking`approved
      ensures picking.approved ==
        var lines := old(picking.approved); Drop(lines, PendingIds(lines) * DoneElsewhere(old(Views()), i))
    {
      ghost var ps := Views();
      var elsewhere: set<ExternalId> := {};
      var k := 0;
      while k < |pickings|
        invariant 0 <= k <= |pickings| && Views() == ps && picking.approved == old(picking.approved)
        invariant elsewhere == DoneAmong(ps, i, k)
      {
        AmongGrows(ps, i, k);
        assert ps[k] == pickings[k].View();
        if pickings[k].sequence != picking.sequence {
          elsewhere := elsewhere + DoneIds(pickings[k].approved);
        }
        k := k + 1;
      }
      picking.DropLines(PendingIds(picking.approved) * elsewhere);
    }

    // _reassign_tracking(): the last approved picking of the reversed list is the first
    // one of the list.
    method ReassignTracking(tokens: seq<Token>)
      requires Valid()
      modifies pickings
      ensures Valid() && pickings == old(pickings) && Views() == Reassign(old(Views()), tokens)
    {
      ghost var ps := Views();
      var k := 0;
      while k < |pickings| && pickings[k].approved == []
        invariant 0 <= k <= |pickings| && Valid() && pickings == old(pickings) && Views() == ps
        invariant Reassign(ps, tokens) == Reassign(ps, tokens, k)
      {
        assert ps[k].approved == [];
        k := k + 1;
      }
      if k < |pickings| {
        assert ps[k].approved != [];
        pickings[k].ExtendTracking(tokens);
        assert Views() == ps[k := ps[k].(tracking := ps[k].tracking + tokens)];
      }
    }

    // One turn of the loop in squash().
    method SquashPicking(i: nat)
      requires Valid() && i < |pickings|
      modifies pickings
      ensures Valid() && pickings == old(pickings) && Views() == SquashOne(old(Views()), i)
    {
      ghost var ps := Views();
      var picking := pickings[i];
      DropDuplicatedKitLines(picking, i);
      ghost var half := Views();
      assert half == ps[i := ps[i].(approved := picking.approved)];
      ElsewhereIgnores(ps, i, half[i]);
      DropDuplicatedDoneLines(picking, i);
      assert Views() == ps[i := ps[i].(approved := KeptLines(ps, i))];
      if picking.approved == [] {
        ReassignTracking(picking.tracking);
      }
    }

    method Squash()
      requires Valid()
      modifies pickings
      ensures Valid() && pickings == old(pickings) && Views() == Transfers.Squash(old(Views()))
    {
      hide SquashOne;
      ghost var ps := Views();
      var i := |pickings|;
      while i > 0
        invariant 0 <= i <= |pickings| && Valid() && pickings == old(pickings)
        invariant SquashDown(Views(), i) == Transfers.Squash(ps)
      {
        i := i - 1;
        SquashPicking(i);
      }
    }

    // dump(): what is exported of each approved picking, in the order of the list.
    method Dump() returns (result: seq<Picking>)
      ensures result == Dumped(Views())
    {
      result := [];
      var k := |pickings|;
      assert Views()[k..] == [];
      while k > 0
        invariant 0 <= k <= |pickings|
        invariant result == Dumped(Views()[k..])
      {
        k := k - 1;
        assert Views()[k..] == [Views()[k]] + Views()[k + 1..];
        if pickings[k].approved != [] {
          result := [pickings[k].View()] + result;
        }
      }
      assert Views()[0..] == Views();
    }
  }

  function Dumped(ps: seq<Picking>): seq<Picking> {
    if ps == [] then []
    else if ps[0].approved != [] then [ps[0]] + Dumped(ps[1..])
    else Dumped(ps[1..])
  }

  ghost function TokensOf(ps: seq<Picking>): multiset<Token> {
    if ps == [] then multiset{} else multiset(ps[0].tracking) + TokensOf(ps[1..])
  }

  lemma {:induction false} TokensSplit(ps: seq<Picking>, p: Picking)
    ensures TokensOf(ps + [p]) == TokensOf(ps) + multiset(p.tracking)
  {
    if ps == [] {
      assert [p][1..] == [];
    } else {
      assert (ps + [p])[1..] == ps[1..] + [p];
      TokensSplit(ps[1..], p);
    }
  }

  lemma {:induction false} DumpedSplit(ps: seq<Picking>, p: Picking)
    ensures Dumped(ps + [p]) == Dumped(ps) + if p.approved != [] then [p] else []
  {
    if ps != [] {
      assert (ps + [p])[1..] == ps[1..] + [p];
      DumpedSplit(ps[1..], p);
    }
  }

  lemma {:induction false} DumpedTokensAre(ps: seq<Picking>, m: nat)
    requires m <= |ps|
    ensures TokensOf(Dumped(ps[..m])) == LiveTokens(ps, 0, m)
  {
    hide TokensOf, Dumped;
    if m > 0 {
      DumpedTokensAre(ps, m - 1);
      var before, p := ps[..m - 1], ps[m - 1];
      assert ps[..m] == before + [p];
      DumpedSplit(before, p);
      TokensSplit(Dumped(before), p);
      assert Dumped(before) + [] == Dumped(before);
    } else {
      NoTokens();
    }
  }

  lemma NoTokens()
    ensures TokensOf([]) == multiset{} && Dumped([]) == []
  {
  }

  lemma {:induction false} AllTokensAre(ps: seq<Picking>, m: nat)
    requires m <= |ps|
    ensures TokensOf(ps[..m]) == LiveTokens(ps, |ps|, m)
  {
    hide TokensOf;
    if m > 0 {
      AllTokensAre(ps, m - 1);
      assert ps[..m] == ps[..m - 1] + [ps[m - 1]];
      TokensSplit(ps[..m - 1], ps[m - 1]);
    } else {
      NoTokens();
    }
  }

  lemma DumpIsConserved(ps: seq<Picking>)
    requires SomeApproved(ps)
    ensures TokensOf(Dumped(Transfers.Squash(ps))) == TokensOf(ps)
  {
    var after := Transfers.Squash(ps);
    assert ps[..|ps|] == ps && after[..|after|] == after;
    AllTokensAre(ps, |ps|);
    DumpedTokensAre(after, |after|);
    TrackingIsConserved(ps);
  }

  // ------------------------------------------------------------------ order of the list

  ghost function ViewsOf(list: seq<PickingSerializer>): seq<Picking>
    reads list
  {
    seq(|list|, i requires 0 <= i < |list| reads list => list[i].View())
  }

  lemma {:induction false} TokensWithout(ps: seq<Picking>, k: nat)
    requires k < |ps|
    ensures TokensOf(ps) == TokensOf(ps[..k] + ps[k + 1..]) + multiset(ps[k].tracking)
  {
    var rest := ps[..k] + ps[k + 1..];
    if k == 0 {
      assert rest == ps[1..];
    } else {
      TokensWithout(ps[1..], k - 1);
      assert rest[0] == ps[0] && rest[1..] == ps[1..][..k - 1] + ps[1..][k..];
    }
  }

  lemma {:induction false} TokensOfSameObjects(a: seq<PickingSerializer>, b: seq<PickingSerializer>)
    requires Distinct(a) && Distinct(b) && forall p :: p in a <==> p in b
    ensures TokensOf(ViewsOf(a)) == TokensOf(ViewsOf(b))
  {
    hide Distinct, TokensOf;
    if b != [] {
      assert b[0] in b;
      assert b[0] in a;
    }
    if a != [] {
      assert a[0] in a;
      var k :| 0 <= k < |b| && b[k] == a[0];
      var b' := b[..k] + b[k + 1..];
      SameRest(a, b, k);
      TokensOfSameObjects(a[1..], b');
      ViewsWithout(b, k);
      TokensWithout(ViewsOf(b), k);
      TokensWithout(ViewsOf(a), 0);
      ViewsWithout(a, 0);
      assert a[..0] + a[1..] == a[1..];
    }
  }

  lemma ViewsWithout(list: seq<PickingSerializer>, k: nat)
    requires k < |list|
    ensures ViewsOf(list)[..k] + ViewsOf(list)[k + 1..] == ViewsOf(list[..k] + list[k + 1..])
    ensures ViewsOf(list)[k] == list[k].View()
  {
  }

  lemma SameRest(a: seq<PickingSerializer>, b: seq<PickingSerializer>, k: nat)
    requires Distinct(a) && Distinct(b) && (forall p :: p in a <==> p in b)
    requires a != [] && k < |b| && b[k] == a[0]
    ensures var b' := b[..k] + b[k + 1..];
      Distinct(a[1..]) && Distinct(b') && forall p :: p in a[1..] <==> p in b'
  {
    var b' := b[..k] + b[k + 1..];
    forall p ensures p in a[1..] <==> p in b' {
      assert p in a <==> p == a[0] || p in a[1..];
      assert p in b <==> p == b[k] || p in b';
    }
  }

  // ------------------------------------------------------------------ the whole export

  lemma {:induction false} DumpedMembers(ps: seq<Picking>)
    ensures forall p :: p in Dumped(ps) <==> p in ps && p.approved != []
  {
    if ps != [] {
      DumpedMembers(ps[1..]);
      assert ps == [ps[0]] + ps[1..];
    }
  }

  lemma {:induction false} DumpStaysExclusive(ps: seq<Picking>)
    requires Exclusive(ps)
    ensures Exclusive(Dumped(ps))
  {
    if ps != [] {
      DumpStaysExclusive(ps[1..]);
      DumpedMembers(ps[1..]);
      var rest := Dumped(ps[1..]);
      forall k | 0 <= k < |rest| ensures Compatible(ps[0], rest[k]) {
        assert rest[k] in ps[1..];
      }
    }
  }

  lemma DumpKeepsIds(ps: seq<Picking>)
    ensures AllIds(Dumped(ps)) == AllIds(ps)
  {
    DumpedMembers(ps);
    forall i, x | 0 <= i < |ps| && x in Ids(ps[i].approved) ensures x in AllIds(Dumped(ps)) {
      assert ps[i] in Dumped(ps);
      var k :| 0 <= k < |Dumped(ps)| && Dumped(ps)[k] == ps[i];
    }
    forall k, x | 0 <= k < |Dumped(ps)| && x in Ids(Dumped(ps)[k].approved) ensures x in AllIds(ps) {
      assert Dumped(ps)[k] in ps;
      var i :| 0 <= i < |ps| && ps[i] == Dumped(ps)[k];
    }
  }

  method SquashAndDump(transfer: SaleTransferSerializer) returns (result: seq<Picking>)
    requires transfer.Valid() && SomeApproved(transfer.Views()) && AllDistinct(transfer.Views())
    modifies transfer.pickings
    ensures TokensOf(result) == old(TokensOf(transfer.Views()))
    ensures AllIds(result) == old(AllIds(transfer.Views())) && Exclusive(result)
  {
    hide TokensOf, Dumped, SomeApproved, Transfers.Squash, AllIds, Exclusive, AllDistinct;
    ghost var ps := transfer.Views();
    transfer.Squash();
    result := transfer.Dump();
    DumpIsConserved(ps);
    SquashIsExclusive(ps);
    DumpStaysExclusive(Transfers.Squash(ps));
    DumpKeepsIds(Transfers.Squash(ps));
  }

  // Arrange, squash, dump. As soon as one picking has a line to export, every tracking
  // token and every line id of the list is exported, each token once, and the exported
  // pickings do not contradict each other.
  method ExportTransfers(list: seq<PickingSerializer>) returns (result: seq<Picking>)
    requires Distinct(list) && forall p :: p in list ==> DistinctIds(p.approved)
    requires exists p :: p in list && p.approved != []
    modifies list
    ensures TokensOf(result) == old(TokensOf(ViewsOf(list)))
    ensures AllIds(result) == old(AllIds(ViewsOf(list))) && Exclusive(result)
  {
    hide TokensOf, Arranged, DistinctIds, AllIds, Exclusive;
    ghost var p :| p in list && p.approved != [];
    ghost var given := ViewsOf(list);
    var transfer := new SaleTransferSerializer(list);
    ghost var arranged, ps := transfer.pickings, transfer.Views();
    assert p.View().approved != [];
    SomePickingApproved(arranged, p);
    forall i | 0 <= i < |arranged| ensures DistinctIds(ps[i].approved) {
      assert arranged[i] in list;
      assert arranged[i].View() == old(arranged[i].View());
    }
    TokensOfSameObjects(list, arranged);
    IdsOfSameObjects(list, arranged);
    assert ViewsOf(list) == given;
    assert ViewsOf(arranged) == ps;
    assert forall i :: 0 <= i < |transfer.pickings| ==> transfer.pickings[i] in list;
    result := SquashAndDump(transfer);
  }

  lemma IdsOfSameObjects(a: seq<PickingSerializer>, b: seq<PickingSerializer>)
    requires forall p :: p in a <==> p in b
    ensures AllIds(ViewsOf(a)) == AllIds(ViewsOf(b))
  {
    forall i, x | 0 <= i < |a| && x in Ids(a[i].approved) ensures x in AllIds(ViewsOf(b)) {
      assert a[i] in b;
      var k :| 0 <= k < |b| && b[k] == a[i];
      assert x in Ids(ViewsOf(b)[k].approved);
    }
    forall i, x | 0 <= i < |b| && x in Ids(b[i].approved) ensures x in AllIds(ViewsOf(a)) {
      assert b[i] in a;
      var k :| 0 <= k < |a| && a[k] == b[i];
      assert x in Ids(ViewsOf(a)[k].approved);
    }
  }

  lemma SomePickingApproved(list: seq<PickingSerializer>, p: PickingSerializer)
    requires p in list && p.approved != []
    ensures SomeApproved(ViewsOf(list))
  {
    var k :| 0 <= k < |list| && list[k] == p;
    assert ViewsOf(list)[k].approved != [];
  }
}
