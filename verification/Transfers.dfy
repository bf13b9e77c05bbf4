// What squashing a set of pickings means: the lines and tracking tokens of the pickings
// of one order, listed by their sequence, before and after.
module Transfers {

  type ExternalId = string
  type Token = string

  // A stock move as the shop sees it.
  datatype Line = Line(externalId: ExternalId, qtyDemand: int, qtyDone: int, isKit: bool, multi: bool) {
    function GetQty(): int {
      if isKit && multi then qtyDemand else qtyDone
    }

    predicate IsDone() {
      qtyDemand == GetQty()
    }
  }

  datatype Picking = Picking(approved: seq<Line>, tracking: seq<Token>)

  function Ids(lines: seq<Line>): set<ExternalId> {
    set x | x in lines :: x.externalId
  }

  function KitIds(lines: seq<Line>): set<ExternalId> {
    set x | x in lines && x.isKit :: x.externalId
  }

  function DoneIds(lines: seq<Line>): set<ExternalId> {
    set x | x in lines && x.IsDone() :: x.externalId
  }

  function PendingIds(lines: seq<Line>): set<ExternalId> {
    set x | x in lines && !x.IsDone() :: x.externalId
  }

  // One line per external id, as approving leaves them.
  ghost predicate DistinctIds(lines: seq<Line>) {
    forall i, j :: 0 <= i < j < |lines| ==> lines[i].externalId != lines[j].externalId
  }

  // The lines whose id is not among the given ones, in order.
  function Drop(lines: seq<Line>, ids: set<ExternalId>): seq<Line> {
    if lines == [] then []
    else if lines[0].externalId in ids then Drop(lines[1..], ids)
    else [lines[0]] + Drop(lines[1..], ids)
  }

  // ------------------------------------------------------------------ the squash loop

  // Kit ids of the first n pickings, picking i left out.
  function KitsAmong(ps: seq<Picking>, i: nat, n: nat): set<ExternalId>
    requires n <= |ps|
  {
    set k, x | 0 <= k < n && k != i && x in KitIds(ps[k].approved) :: x
  }

  function DoneAmong(ps: seq<Picking>, i: nat, n: nat): set<ExternalId>
    requires n <= |ps|
  {
    set k, x | 0 <= k < n && k != i && x in DoneIds(ps[k].approved) :: x
  }

  function KitsElsewhere(ps: seq<Picking>, i: nat): set<ExternalId> {
    KitsAmong(ps, i, |ps|)
  }

  function DoneElsewhere(ps: seq<Picking>, i: nat): set<ExternalId> {
    DoneAmong(ps, i, |ps|)
  }

  lemma AmongGrows(ps: seq<Picking>, i: nat, n: nat)
    requires n < |ps|
    ensures KitsAmong(ps, i, n + 1) == KitsAmong(ps, i, n) + if n != i then KitIds(ps[n].approved) else {}
    ensures DoneAmong(ps, i, n + 1) == DoneAmong(ps, i, n) + if n != i then DoneIds(ps[n].approved) else {}
  {
  }

  lemma ElsewhereIgnores(ps: seq<Picking>, i: nat, p: Picking)
    requires i < |ps|
    ensures DoneElsewhere(ps[i := p], i) == DoneElsewhere(ps, i)
  {
    var qs := ps[i := p];
    assert forall k :: 0 <= k < |ps| && k != i ==> qs[k] == ps[k];
  }

  // The lines picking i keeps when it is its turn: first its kit lines give way to kit
  // lines elsewhere, then its unfinished lines to finished ones elsewhere.
  function KeptLines(ps: seq<Picking>, i: nat): seq<Line>
    requires i < |ps|
  {
    var kits := Drop(ps[i].approved, KitIds(ps[i].approved) * KitsElsewhere(ps, i));
    Drop(kits, PendingIds(kits) * DoneElsewhere(ps, i))
  }

  ghost predicate IsFirstApproved(ps: seq<Picking>, k: nat) {
    k < |ps| && ps[k].approved != [] && forall i :: 0 <= i < k ==> ps[i].approved == []
  }

  // The approved picking with the lowest sequence receives the tokens, if there is one.
  function Reassign(ps: seq<Picking>, tokens: seq<Token>, k: nat := 0): seq<Picking>
    decreases |ps| - k
  {
    if k >= |ps| then ps
    else if ps[k].approved != [] then ps[k := ps[k].(tracking := ps[k].tracking + tokens)]
    else Reassign(ps, tokens, k + 1)
  }

  function SquashOne(ps: seq<Picking>, i: nat): seq<Picking>
    requires i < |ps|
  {
    var kept := KeptLines(ps, i);
    var dropped := ps[i := ps[i].(approved := kept)];
    if kept == [] then Reassign(dropped, ps[i].tracking) else dropped
  }

  // The pickings below n still have their turn, the last one first.
  function SquashDown(ps: seq<Picking>, n: nat): (r: seq<Picking>)
    requires n <= |ps|
    ensures |r| == |ps|
    decreases n
  {
    if n == 0 then ps else
      SquashOneLength(ps, n - 1);
      SquashDown(SquashOne(ps, n - 1), n - 1)
  }

  function Squash(ps: seq<Picking>): seq<Picking> {
    SquashDown(ps, |ps|)
  }

  lemma {:induction false} ReassignFinds(ps: seq<Picking>, tokens: seq<Token>, k: nat)
    requires forall i :: 0 <= i < k && i < |ps| ==> ps[i].approved == []
    ensures var r := Reassign(ps, tokens, k);
      && |r| == |ps|
      && ((forall i :: 0 <= i < |ps| ==> ps[i].approved == []) ==> r == ps)
      && forall f: nat :: IsFirstApproved(ps, f) ==> r == ps[f := ps[f].(tracking := ps[f].tracking + tokens)]
    decreases |ps| - k
  {
    if k < |ps| {
      if ps[k].approved == [] {
        ReassignFinds(ps, tokens, k + 1);
      } else {
        forall f: nat | IsFirstApproved(ps, f) ensures f == k {
        }
      }
    }
  }

  lemma SquashOneLength(ps: seq<Picking>, i: nat)
    requires i < |ps|
    ensures |SquashOne(ps, i)| == |ps|
  {
    ReassignFinds(ps[i := ps[i].(approved := KeptLines(ps, i))], ps[i].tracking, 0);
  }

  // ------------------------------------------------------------------ dropping lines

  lemma {:induction false} DropMembers(lines: seq<Line>, ids: set<ExternalId>)
    ensures forall x :: x in Drop(lines, ids) <==> x in lines && x.externalId !in ids
  {
    if lines != [] {
      DropMembers(lines[1..], ids);
      assert lines == [lines[0]] + lines[1..];
    }
  }

  lemma {:induction false} DropTwice(lines: seq<Line>, a: set<ExternalId>, b: set<ExternalId>)
    ensures Drop(Drop(lines, a), b) == Drop(lines, a + b)
  {
    if lines != [] {
      DropTwice(lines[1..], a, b);
      if lines[0].externalId !in a {
        var rest := Drop(lines[1..], a);
        assert ([lines[0]] + rest)[1..] == rest;
      }
    }
  }

  lemma {:induction false} DropSame(lines: seq<Line>, a: set<ExternalId>, b: set<ExternalId>)
    requires forall x :: x in Ids(lines) ==> (x in a <==> x in b)
    ensures Drop(lines, a) == Drop(lines, b)
  {
    if lines != [] {
      assert lines[0].externalId in Ids(lines);
      forall x | x in Ids(lines[1..]) ensures x in Ids(lines) {
      }
      DropSame(lines[1..], a, b);
    }
  }

  lemma {:induction false} DropNothing(lines: seq<Line>)
    ensures Drop(lines, {}) == lines
  {
    if lines != [] { DropNothing(lines[1..]); }
  }

  lemma DistinctLine(lines: seq<Line>, x: Line, y: Line)
    requires DistinctIds(lines) && x in lines && y in lines && x.externalId == y.externalId
    ensures x == y
  {
    var i :| 0 <= i < |lines| && lines[i] == x;
    var j :| 0 <= j < |lines| && lines[j] == y;
    assert i == j;
  }

  // ------------------------------------------------------------------ the closed form

  ghost predicate Holds(ps: seq<Picking>, i: nat, x: ExternalId) {
    i < |ps| && x in Ids(ps[i].approved)
  }

  ghost predicate KitAt(ps: seq<Picking>, i: nat, x: ExternalId) {
    i < |ps| && x in KitIds(ps[i].approved)
  }

  ghost predicate DoneAt(ps: seq<Picking>, i: nat, x: ExternalId) {
    i < |ps| && x in DoneIds(ps[i].approved)
  }

  // Of the pickings holding x as a kit, only the one with the lowest sequence keeps it.
  ghost predicate KeepsKit(ps: seq<Picking>, i: nat, x: ExternalId) {
    Holds(ps, i, x) && (KitAt(ps, i, x) ==> forall k: nat :: k < i ==> !KitAt(ps, k, x))
  }

  // A holder outdone by picking k: k has x finished, and either comes earlier or is not
  // itself a kit holder that gives way.
  ghost predicate Outdone(ps: seq<Picking>, i: nat, x: ExternalId) {
    exists k: nat :: k != i && DoneAt(ps, k, x) && (k < i || KeepsKit(ps, k, x))
  }

  // Whether picking i still has external id x after squashing, read off the pickings as
  // they were before.
  ghost predicate Stays(ps: seq<Picking>, i: nat, x: ExternalId) {
    KeepsKit(ps, i, x) && (DoneAt(ps, i, x) || !Outdone(ps, i, x))
  }

  ghost function Lost(ps: seq<Picking>, i: nat): set<ExternalId>
    requires i < |ps|
  {
    set x | x in Ids(ps[i].approved) && !Stays(ps, i, x)
  }

  ghost predicate AllDistinct(ps: seq<Picking>) {
    forall i :: 0 <= i < |ps| ==> DistinctIds(ps[i].approved)
  }

  // From n on the pickings have had their turn and hold what the closed form says.
  ghost predicate HalfWay(ps: seq<Picking>, now: seq<Picking>, n: nat) {
    && |now| == |ps|
    && forall i :: 0 <= i < |ps| ==>
         now[i].approved == if i < n then ps[i].approved else Drop(ps[i].approved, Lost(ps, i))
  }

  lemma NowKit(ps: seq<Picking>, now: seq<Picking>, n: nat, k: nat, x: ExternalId)
    requires HalfWay(ps, now, n) && k < |ps|
    ensures KitAt(now, k, x) <==> KitAt(ps, k, x) && (k < n || Stays(ps, k, x))
  {
    DropMembers(ps[k].approved, Lost(ps, k));
  }

  lemma NowDone(ps: seq<Picking>, now: seq<Picking>, n: nat, k: nat, x: ExternalId)
    requires HalfWay(ps, now, n) && k < |ps|
    ensures DoneAt(now, k, x) <==> DoneAt(ps, k, x) && (k < n || Stays(ps, k, x))
  {
    DropMembers(ps[k].approved, Lost(ps, k));
  }

  lemma KitDropMeaning(ps: seq<Picking>, now: seq<Picking>, i: nat, x: ExternalId)
    requires HalfWay(ps, now, i + 1) && i < |ps| && x in Ids(ps[i].approved)
    ensures x in KitIds(now[i].approved) * KitsElsewhere(now, i) <==> !KeepsKit(ps, i, x)
  {
    if KitAt(ps, i, x) {
      forall k: nat | k < |ps| ensures KitAt(now, k, x) <==> KitAt(ps, k, x) && (k <= i || Stays(ps, k, x)) {
        NowKit(ps, now, i + 1, k, x);
      }
      if !KeepsKit(ps, i, x) {
        var k: nat :| k < i && KitAt(ps, k, x);
        assert KitAt(now, k, x);
      }
      if x in KitsElsewhere(now, i) {
        var k: nat :| k < |now| && k != i && x in KitIds(now[k].approved);
        assert KitAt(now, k, x);
        assert k < i;
      }
    }
  }

  lemma PendingDropMeaning(ps: seq<Picking>, now: seq<Picking>, i: nat, x: ExternalId)
    requires HalfWay(ps, now, i + 1) && i < |ps|
    ensures x in DoneElsewhere(now, i) <==> Outdone(ps, i, x)
  {
    forall k: nat | k < |ps| ensures DoneAt(now, k, x) <==> DoneAt(ps, k, x) && (k <= i || KeepsKit(ps, k, x)) {
      NowDone(ps, now, i + 1, k, x);
    }
    if x in DoneElsewhere(now, i) {
      var k: nat :| k < |now| && k != i && x in DoneIds(now[k].approved);
      assert DoneAt(now, k, x);
    }
    if Outdone(ps, i, x) {
      var k: nat :| k != i && DoneAt(ps, k, x) && (k < i || KeepsKit(ps, k, x));
      assert DoneAt(now, k, x);
    }
  }

  lemma PendingNotDone(lines: seq<Line>, x: ExternalId)
    requires DistinctIds(lines) && x in Ids(lines)
    ensures x in PendingIds(lines) <==> x !in DoneIds(lines)
  {
    if x in PendingIds(lines) && x in DoneIds(lines) {
      var l :| l in lines && !l.IsDone() && l.externalId == x;
      var m :| m in lines && m.IsDone() && m.externalId == x;
      DistinctLine(lines, l, m);
    }
  }

  // The turn of picking i does what the closed form says.
  lemma TurnIsClosedForm(ps: seq<Picking>, now: seq<Picking>, i: nat)
    requires HalfWay(ps, now, i + 1) && i < |ps| && AllDistinct(ps)
    ensures KeptLines(now, i) == Drop(ps[i].approved, Lost(ps, i))
  {
    var lines := now[i].approved;
    var a := KitIds(lines) * KitsElsewhere(now, i);
    var kits := Drop(lines, a);
    var b := PendingIds(kits) * DoneElsewhere(now, i);
    DropTwice(lines, a, b);
    DropMembers(lines, a);
    forall x | x in Ids(lines) ensures x in a + b <==> x in Lost(ps, i) {
      TurnOfId(ps, now, i, x);
    }
    DropSame(lines, a + b, Lost(ps, i));
  }

  lemma TurnOfId(ps: seq<Picking>, now: seq<Picking>, i: nat, x: ExternalId)
    requires HalfWay(ps, now, i + 1) && i < |ps| && AllDistinct(ps) && x in Ids(now[i].approved)
    ensures var a := KitIds(now[i].approved) * KitsElsewhere(now, i);
      var b := PendingIds(Drop(now[i].approved, a)) * DoneElsewhere(now, i);
      x in a + b <==> !Stays(ps, i, x)
  {
    var lines := now[i].approved;
    var a := KitIds(lines) * KitsElsewhere(now, i);
    KitDropMeaning(ps, now, i, x);
    PendingDropMeaning(ps, now, i, x);
    PendingNotDone(lines, x);
    DropMembers(lines, a);
    assert x !in a ==> (x in PendingIds(Drop(lines, a)) <==> x in PendingIds(lines));
  }

  lemma SquashOneLines(ps: seq<Picking>, i: nat)
    requires i < |ps|
    ensures |SquashOne(ps, i)| == |ps|
    ensures forall k :: 0 <= k < |ps| ==>
      SquashOne(ps, i)[k].approved == if k == i then KeptLines(ps, i) else ps[k].approved
  {
    var dropped := ps[i := ps[i].(approved := KeptLines(ps, i))];
    ReassignFinds(dropped, ps[i].tracking, 0);
    if k :| 0 <= k < |dropped| && dropped[k].approved != [] {
      var f := FirstApproved(dropped, k);
    }
  }

  lemma {:induction false} FirstApproved(ps: seq<Picking>, k: nat) returns (f: nat)
    requires k < |ps| && ps[k].approved != []
    ensures IsFirstApproved(ps, f) && f <= k
  {
    if i :| 0 <= i < k && ps[i].approved != [] {
      f := FirstApproved(ps, i);
    } else {
      f := k;
    }
  }

  lemma NextHalfWay(ps: seq<Picking>, now: seq<Picking>, i: nat)
    requires HalfWay(ps, now, i + 1) && i < |ps| && AllDistinct(ps)
    ensures |now| == |ps| && HalfWay(ps, SquashOne(now, i), i)
  {
    TurnIsClosedForm(ps, now, i);
    SquashOneLines(now, i);
    hide SquashOne, KeptLines, Lost;
  }

  lemma {:induction false} SquashDownIsClosedForm(ps: seq<Picking>, now: seq<Picking>, n: nat)
    requires HalfWay(ps, now, n) && n <= |ps| && AllDistinct(ps)
    ensures HalfWay(ps, SquashDown(now, n), 0)
    decreases n
  {
    hide HalfWay, AllDistinct, KeptLines, Reassign, SquashOne;
    if n > 0 {
      NextHalfWay(ps, now, n - 1);
      SquashDownIsClosedForm(ps, SquashOne(now, n - 1), n - 1);
    }
  }

  // Squashing keeps in each picking exactly the lines of the ids that stay there.
  lemma SquashIsClosedForm(ps: seq<Picking>)
    requires AllDistinct(ps)
    ensures |Squash(ps)| == |ps|
    ensures forall i :: 0 <= i < |ps| ==> Squash(ps)[i].approved == Drop(ps[i].approved, Lost(ps, i))
  {
    SquashDownIsClosedForm(ps, ps, |ps|);
  }

  lemma SquashedIds(ps: seq<Picking>, i: nat, x: ExternalId)
    requires AllDistinct(ps) && i < |ps|
    ensures |Squash(ps)| == |ps|
    ensures Holds(Squash(ps), i, x) <==> Stays(ps, i, x)
    ensures KitAt(Squash(ps), i, x) <==> KitAt(ps, i, x) && Stays(ps, i, x)
    ensures DoneAt(Squash(ps), i, x) <==> DoneAt(ps, i, x) && Stays(ps, i, x)
  {
    SquashIsClosedForm(ps);
    DropMembers(ps[i].approved, Lost(ps, i));
  }

  // ------------------------------------------------------------------ what squashing promises

  lemma {:induction false} FirstHolder(ps: seq<Picking>, i: nat, x: ExternalId) returns (k: nat)
    requires Holds(ps, i, x)
    ensures Holds(ps, k, x) && forall m: nat :: m < k ==> !Holds(ps, m, x)
    decreases i
  {
    if j: nat :| j < i && Holds(ps, j, x) {
      k := FirstHolder(ps, j, x);
    } else {
      k := i;
    }
  }

  lemma Holders(ps: seq<Picking>, m: nat, x: ExternalId)
    ensures KitAt(ps, m, x) || DoneAt(ps, m, x) ==> Holds(ps, m, x)
  {
  }

  // Every id approved in some picking stays in some picking.
  lemma NoIdIsLost(ps: seq<Picking>, i: nat, x: ExternalId) returns (k: nat)
    requires Holds(ps, i, x)
    ensures k < |ps| && Stays(ps, k, x)
  {
    if j: nat :| KeepsKit(ps, j, x) && DoneAt(ps, j, x) {
      k := j;
    } else {
      k := FirstHolder(ps, i, x);
      forall m: nat | m < k ensures !KitAt(ps, m, x) && !DoneAt(ps, m, x) {
        Holders(ps, m, x);
      }
    }
  }

  // Two pickings never both keep x as a kit, nor one keeps it unfinished and another
  // finished; a kit that stays is where its first holder had it.
  lemma HoldersAreExclusive(ps: seq<Picking>, i: nat, k: nat, x: ExternalId)
    requires AllDistinct(ps) && i < |ps| && k < |ps| && i != k
    ensures |Squash(ps)| == |ps|
    ensures !(KitAt(Squash(ps), i, x) && KitAt(Squash(ps), k, x))
    ensures Holds(Squash(ps), i, x) && Holds(Squash(ps), k, x) ==>
      (DoneAt(Squash(ps), i, x) <==> DoneAt(Squash(ps), k, x))
    ensures KitAt(Squash(ps), i, x) && KitAt(ps, k, x) ==> i < k
  {
    SquashedIds(ps, i, x);
    SquashedIds(ps, k, x);
    if DoneAt(ps, i, x) && KeepsKit(ps, i, x) { assert Outdone(ps, k, x); }
    if DoneAt(ps, k, x) && KeepsKit(ps, k, x) { assert Outdone(ps, i, x); }
  }

  // When an id is still exported twice: both pickings keep it and have it finished, or
  // nobody who keeps it, and nobody before them, has it finished.
  lemma SharedExactly(ps: seq<Picking>, i: nat, k: nat, x: ExternalId)
    requires AllDistinct(ps) && i < k < |ps|
    ensures |Squash(ps)| == |ps|
    ensures Holds(Squash(ps), i, x) && Holds(Squash(ps), k, x) <==>
      && KeepsKit(ps, i, x) && KeepsKit(ps, k, x)
      && (|| (DoneAt(ps, i, x) && DoneAt(ps, k, x))
          || forall m: nat :: DoneAt(ps, m, x) ==> k <= m && !KeepsKit(ps, m, x))
  {
    SquashedIds(ps, i, x);
    SquashedIds(ps, k, x);
    if DoneAt(ps, i, x) && KeepsKit(ps, i, x) { assert Outdone(ps, k, x); }
    if DoneAt(ps, k, x) && KeepsKit(ps, k, x) { assert Outdone(ps, i, x); }
    forall m: nat | m < |ps| && DoneAt(ps, m, x) && (m < k || KeepsKit(ps, m, x)) && m != k ensures Outdone(ps, k, x) {
    }
  }

  // No id is a kit in both, and none is unfinished in one and finished in the other.
  ghost predicate Compatible(p: Picking, q: Picking) {
    && KitIds(p.approved) !! KitIds(q.approved)
    && PendingIds(p.approved) !! DoneIds(q.approved)
    && DoneIds(p.approved) !! PendingIds(q.approved)
  }

  ghost predicate Exclusive(ps: seq<Picking>) {
    forall i, k :: 0 <= i < k < |ps| ==> Compatible(ps[i], ps[k])
  }

  ghost function AllIds(ps: seq<Picking>): set<ExternalId> {
    set i, x | 0 <= i < |ps| && x in Ids(ps[i].approved) :: x
  }

  lemma {:induction false} DropStaysDistinct(lines: seq<Line>, ids: set<ExternalId>)
    requires DistinctIds(lines)
    ensures DistinctIds(Drop(lines, ids))
  {
    if lines != [] {
      DropStaysDistinct(lines[1..], ids);
      DropMembers(lines[1..], ids);
      var rest := Drop(lines[1..], ids);
      forall j | 0 <= j < |rest| ensures rest[j].externalId != lines[0].externalId {
        assert rest[j] in lines[1..];
      }
    }
  }

  lemma SquashIsExclusive(ps: seq<Picking>)
    requires AllDistinct(ps)
    ensures Exclusive(Squash(ps)) && AllIds(Squash(ps)) == AllIds(ps)
  {
    SquashIsClosedForm(ps);
    var after := Squash(ps);
    forall i, k | 0 <= i < k < |ps| ensures Compatible(after[i], after[k]) {
      SquashedPairIsCompatible(ps, i, k);
    }
    forall x ensures x in AllIds(after) <==> x in AllIds(ps) {
      IdStaysSomewhere(ps, x);
    }
  }

  lemma IdStaysSomewhere(ps: seq<Picking>, x: ExternalId)
    requires AllDistinct(ps)
    ensures x in AllIds(Squash(ps)) <==> x in AllIds(ps)
  {
    SquashIsClosedForm(ps);
    if i: nat :| i < |ps| && x in Ids(ps[i].approved) {
      var k := NoIdIsLost(ps, i, x);
      SquashedIds(ps, k, x);
    }
    if i: nat :| i < |ps| && x in Ids(Squash(ps)[i].approved) {
      SquashedIds(ps, i, x);
    }
  }

  lemma SquashedPairIsCompatible(ps: seq<Picking>, i: nat, k: nat)
    requires AllDistinct(ps) && i < |ps| && k < |ps| && i != k
    ensures |Squash(ps)| == |ps| && Compatible(Squash(ps)[i], Squash(ps)[k])
  {
    SquashIsClosedForm(ps);
    var p, q := Squash(ps)[i], Squash(ps)[k];
    DropStaysDistinct(ps[i].approved, Lost(ps, i));
    DropStaysDistinct(ps[k].approved, Lost(ps, k));
    hide Lost, Drop, DistinctIds, Squash;
    forall x | x in Ids(p.approved) && x in Ids(q.approved)
      ensures x !in KitIds(p.approved) || x !in KitIds(q.approved)
      ensures x in DoneIds(p.approved) <==> x in DoneIds(q.approved)
      ensures x in PendingIds(p.approved) <==> x !in DoneIds(p.approved)
      ensures x in PendingIds(q.approved) <==> x !in DoneIds(q.approved)
    {
      HoldersAreExclusive(ps, i, k, x);
      PendingNotDone(p.approved, x);
      PendingNotDone(q.approved, x);
    }
  }

  // Some other picking has delivered id x in full, read off its lines.
  ghost predicate DeliveredElsewhere(ps: seq<Picking>, i: nat, x: ExternalId) {
    exists k, m :: 0 <= k < |ps| && k != i && m in ps[k].approved && m.externalId == x && m.qtyDone == m.qtyDemand
  }

  ghost predicate NoKitLine(ps: seq<Picking>, x: ExternalId) {
    forall k, m :: 0 <= k < |ps| && m in ps[k].approved && m.externalId == x ==> !m.isKit
  }

  // Of an id without kit lines, a picking keeps its line if and only if what was done is
  // what was demanded, or no other picking can say so.
  lemma PlainLineStaysExactly(ps: seq<Picking>, i: nat, l: Line)
    requires AllDistinct(ps) && i < |ps| && l in ps[i].approved && NoKitLine(ps, l.externalId)
    ensures |Squash(ps)| == |ps|
    ensures l.externalId in Ids(Squash(ps)[i].approved) <==>
            l.qtyDone == l.qtyDemand || !DeliveredElsewhere(ps, i, l.externalId)
  {
    var x := l.externalId;
    SquashedIds(ps, i, x);
    assert KeepsKit(ps, i, x);
    if DoneAt(ps, i, x) {
      var m :| m in ps[i].approved && m.IsDone() && m.externalId == x;
      DistinctLine(ps[i].approved, l, m);
    }
    if Outdone(ps, i, x) {
      var k: nat :| k != i && DoneAt(ps, k, x);
      var m :| m in ps[k].approved && m.IsDone() && m.externalId == x;
      assert DeliveredElsewhere(ps, i, x);
    }
    if DeliveredElsewhere(ps, i, x) {
      var k: nat, m :| k < |ps| && k != i && m in ps[k].approved && m.externalId == x && m.qtyDone == m.qtyDemand;
      assert DoneAt(ps, k, x) && KeepsKit(ps, k, x);
    }
  }

  // In the tracking export a kit line is never dropped as unfinished, whatever was done of
  // it: it stays if and only if no earlier picking has a kit line of the same id.
  lemma KitLineStaysExactly(ps: seq<Picking>, i: nat, l: Line)
    requires AllDistinct(ps) && i < |ps| && l in ps[i].approved && l.isKit && l.multi
    ensures |Squash(ps)| == |ps|
    ensures l.externalId in Ids(Squash(ps)[i].approved) <==>
            forall k, m :: 0 <= k < i && m in ps[k].approved && m.externalId == l.externalId ==> !m.isKit
  {
    var x := l.externalId;
    SquashedIds(ps, i, x);
    assert KitAt(ps, i, x) && DoneAt(ps, i, x);
    if k: nat :| k < i && KitAt(ps, k, x) {
      var m :| m in ps[k].approved && m.isKit && m.externalId == x;
    }
    if k: nat, m :| k < i && m in ps[k].approved && m.externalId == x && m.isKit {
      assert KitAt(ps, k, x);
    }
  }

  // Sharing is not removed altogether: unfinished lines that are no kits stay in every
  // picking when nobody has finished them.
  lemma UnfinishedLinesStayShared(ps: seq<Picking>, i: nat, x: ExternalId)
    requires AllDistinct(ps) && Holds(ps, i, x) && !KitAt(ps, i, x)
    requires forall k: nat :: !DoneAt(ps, k, x)
    ensures |Squash(ps)| == |ps| && Holds(Squash(ps), i, x)
  {
    SquashedIds(ps, i, x);
  }

  // ------------------------------------------------------------------ tracking tokens

  ghost predicate SomeApproved(ps: seq<Picking>) {
    exists i :: 0 <= i < |ps| && ps[i].approved != []
  }

  // The tokens of the first m pickings that are still to have their turn (below n) or
  // are approved.
  ghost function LiveTokens(ps: seq<Picking>, n: nat, m: nat): multiset<Token>
    requires m <= |ps|
  {
    if m == 0 then multiset{}
    else if m - 1 < n || ps[m - 1].approved != [] then LiveTokens(ps, n, m - 1) + multiset(ps[m - 1].tracking)
    else LiveTokens(ps, n, m - 1)
  }

  ghost function AllTokens(ps: seq<Picking>): multiset<Token> {
    LiveTokens(ps, |ps|, |ps|)
  }

  ghost function DumpedTokens(ps: seq<Picking>): multiset<Token> {
    LiveTokens(ps, 0, |ps|)
  }

  lemma {:induction false} SameLive(ps: seq<Picking>, qs: seq<Picking>, n: nat, n': nat, m: nat)
    requires m <= |ps| && m <= |qs|
    requires forall k :: 0 <= k < m ==> ps[k].tracking == qs[k].tracking
    requires forall k :: 0 <= k < m ==> ((k < n || ps[k].approved != []) <==> (k < n' || qs[k].approved != []))
    ensures LiveTokens(ps, n, m) == LiveTokens(qs, n', m)
  {
    if m > 0 { SameLive(ps, qs, n, n', m - 1); }
  }

  // Only picking k differs: by tokens it received while alive.
  lemma {:induction false} OneReceives(ps: seq<Picking>, n: nat, m: nat, k: nat, tokens: seq<Token>)
    requires k < m <= |ps| && (k < n || ps[k].approved != [])
    ensures LiveTokens(ps[k := ps[k].(tracking := ps[k].tracking + tokens)], n, m) ==
            LiveTokens(ps, n, m) + multiset(tokens)
  {
    var qs := ps[k := ps[k].(tracking := ps[k].tracking + tokens)];
    if k == m - 1 {
      SameLive(ps, qs, n, n, m - 1);
    } else {
      OneReceives(ps, n, m - 1, k, tokens);
    }
  }

  // Picking k was alive in ps at n + 1 and is not in qs at n; nothing else differs.
  lemma {:induction false} OneLeaves(ps: seq<Picking>, qs: seq<Picking>, n: nat, m: nat)
    requires |qs| == |ps| && n < m <= |ps| && qs[n].approved == []
    requires forall k :: 0 <= k < |ps| ==> qs[k].tracking == ps[k].tracking
    requires forall k :: 0 <= k < |ps| && k != n ==> qs[k].approved == ps[k].approved
    ensures LiveTokens(ps, n + 1, m) == LiveTokens(qs, n, m) + multiset(ps[n].tracking)
  {
    if n == m - 1 {
      SameLive(ps, qs, n + 1, n, m - 1);
    } else {
      OneLeaves(ps, qs, n, m - 1);
    }
  }

  lemma KeptOrElsewhere(ps: seq<Picking>, i: nat)
    requires i < |ps| && ps[i].approved != [] && KeptLines(ps, i) == []
    ensures exists k :: 0 <= k < |ps| && k != i && ps[k].approved != []
  {
    var line := ps[i].approved[0];
    var a := KitIds(ps[i].approved) * KitsElsewhere(ps, i);
    var kits := Drop(ps[i].approved, a);
    DropMembers(ps[i].approved, a);
    DropMembers(kits, PendingIds(kits) * DoneElsewhere(ps, i));
    assert line !in KeptLines(ps, i);
    if line.externalId in a {
      var k :| 0 <= k < |ps| && k != i && line.externalId in KitIds(ps[k].approved);
      assert ps[k].approved != [];
    } else {
      assert line in kits;
      var k :| 0 <= k < |ps| && k != i && line.externalId in DoneIds(ps[k].approved);
      assert ps[k].approved != [];
    }
  }

  lemma EmptiedPassesOn(ps: seq<Picking>, i: nat)
    requires i < |ps| && SomeApproved(ps) && KeptLines(ps, i) == []
    ensures |SquashOne(ps, i)| == |ps| && SomeApproved(SquashOne(ps, i))
    ensures LiveTokens(SquashOne(ps, i), i, |ps|) == LiveTokens(ps, i + 1, |ps|)
  {
    hide Reassign, KeptLines;
    var dropped := ps[i := ps[i].(approved := [])];
    var j :| 0 <= j < |ps| && ps[j].approved != [];
    if j == i { KeptOrElsewhere(ps, i); }
    var k :| 0 <= k < |ps| && k != i && ps[k].approved != [];
    assert dropped[k].approved != [];
    var f := FirstApproved(dropped, k);
    ReassignFinds(dropped, ps[i].tracking, 0);
    assert SquashOne(ps, i)[f].approved != [];
    OneReceives(dropped, i, |ps|, f, ps[i].tracking);
    OneLeaves(ps, dropped, i, |ps|);
  }

  lemma TurnKeepsTokens(ps: seq<Picking>, i: nat)
    requires i < |ps| && SomeApproved(ps)
    ensures |SquashOne(ps, i)| == |ps| && SomeApproved(SquashOne(ps, i))
    ensures LiveTokens(SquashOne(ps, i), i, |ps|) == LiveTokens(ps, i + 1, |ps|)
  {
    hide Reassign, KeptLines;
    if KeptLines(ps, i) == [] {
      EmptiedPassesOn(ps, i);
    } else {
      var after := SquashOne(ps, i);
      assert after[i].approved != [];
      SameLive(after, ps, i, i + 1, |ps|);
    }
  }

  lemma {:induction false} SquashDownKeepsTokens(ps: seq<Picking>, n: nat)
    requires n <= |ps| && SomeApproved(ps)
    ensures LiveTokens(SquashDown(ps, n), 0, |ps|) == LiveTokens(ps, n, |ps|)
    decreases n
  {
    if n > 0 {
      TurnKeepsTokens(ps, n - 1);
      SquashDownKeepsTokens(SquashOne(ps, n - 1), n - 1);
    }
  }

  lemma {:induction false} NothingStaysNothing(ps: seq<Picking>, n: nat)
    requires n <= |ps| && !SomeApproved(ps)
    ensures LiveTokens(SquashDown(ps, n), 0, |ps|) == multiset{}
    decreases n
  {
    if n > 0 {
      assert ps[n - 1].approved == [];
      SquashOneLines(ps, n - 1);
      assert KeptLines(ps, n - 1) == [];
      NothingStaysNothing(SquashOne(ps, n - 1), n - 1);
    } else {
      NothingLive(ps, |ps|);
    }
  }

  lemma {:induction false} NothingLive(ps: seq<Picking>, m: nat)
    requires m <= |ps| && !SomeApproved(ps)
    ensures LiveTokens(ps, 0, m) == multiset{}
  {
    if m > 0 {
      assert ps[m - 1].approved == [];
      NothingLive(ps, m - 1);
    }
  }

  // Every tracking token ends in a dumped picking, unless no picking ever had a line.
  lemma TrackingIsConserved(ps: seq<Picking>)
    ensures DumpedTokens(Squash(ps)) == AllTokens(ps) <==> SomeApproved(ps) || AllTokens(ps) == multiset{}
  {
    if SomeApproved(ps) {
      SquashDownKeepsTokens(ps, |ps|);
    } else {
      NothingStaysNothing(ps, |ps|);
    }
  }
}
