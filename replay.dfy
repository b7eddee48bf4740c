/**
  The decoded replay as the report code sees it, and the list operations
  (LINQ Where, Count, FirstOrDefault, OrderBy) the report code applies to it.
  The decoding itself belongs to an external library; its output is given
  here as plain values.
*/
module Replay {
  import opened Wrappers
  import opened Text

  /** PlayerData: the fields the report reads. Placement is absent for NPCs and for players still alive when the replay ends. */
  datatype Player = Player(id: string, name: string, isBot: bool, teamIndex: int, placement: Option<int>)

  /**
    An elimination event. Eliminator and Eliminated are the decoder's
    upper-case player ids; EliminatorInfo.Id and EliminatedInfo.Id are the ids
    of the attached info records; Time is "mm:ss" into the match.
  */
  datatype Elimination = Elimination(
    eliminator: string,
    eliminated: string,
    eliminatorInfoId: string,
    eliminatedInfoId: string,
    time: string)

  /** FortniteReplay: players and eliminations in decoder order, whether the match start time is known, and Info.LengthInMs. */
  datatype ReplayData = ReplayData(
    players: seq<Player>,
    eliminations: seq<Elimination>,
    hasMatchStart: bool,
    lengthInMs: nat)

  /** `a` is `b` with some elements left out, the rest in the same order. */
  ghost predicate IsSubsequence<T>(a: seq<T>, b: seq<T>)
    decreases |b|
  {
    a == [] || (b != [] && ((a[0] == b[0] && IsSubsequence(a[1..], b[1..])) || IsSubsequence(a, b[1..])))
  }

  /** Enumerable.Where. */
  function Filter<T>(s: seq<T>, keep: T -> bool): (r: seq<T>)
    ensures |r| <= |s|
  {
    if s == [] then []
    else if keep(s[0]) then [s[0]] + Filter(s[1..], keep)
    else Filter(s[1..], keep)
  }

  /**
    Where keeps exactly the elements that satisfy the test, each as often as
    in the source, in the source's order.
  */
  lemma {:induction false} FilterSpec<T(!new)>(s: seq<T>, keep: T -> bool)
    ensures forall x :: x in Filter(s, keep) ==> x in s && keep(x)
    ensures forall x :: keep(x) ==> multiset(Filter(s, keep))[x] == multiset(s)[x]
    ensures IsSubsequence(Filter(s, keep), s)
  {
    if s != [] {
      FilterSpec(s[1..], keep);
      var rest := Filter(s[1..], keep);
      assert s == [s[0]] + s[1..];
      if keep(s[0]) {
        var r := [s[0]] + rest;
        assert r[0] == s[0] && r[1..] == rest;
      }
    }
  }

  lemma {:induction false} FilterAppend<T>(a: seq<T>, b: seq<T>, keep: T -> bool)
    ensures Filter(a + b, keep) == Filter(a, keep) + Filter(b, keep)
  {
    if a == [] {
      assert a + b == b;
    } else {
      assert (a + b)[0] == a[0] && (a + b)[1..] == a[1..] + b;
      FilterAppend(a[1..], b, keep);
    }
  }

  /** Elements that fail a test and elements that pass it make up the whole sequence. */
  lemma {:induction false} FilterComplement<T>(s: seq<T>, keep: T -> bool, drop: T -> bool)
    requires forall x :: drop(x) == !keep(x)
    ensures |Filter(s, keep)| + |Filter(s, drop)| == |s|
  {
    if s != [] {
      FilterComplement(s[1..], keep, drop);
    }
  }

  /** The index of the first element satisfying `p`, if any. */
  function FirstIndex<T>(s: seq<T>, p: T -> bool): (r: Option<nat>)
    ensures r.Some? ==> r.value < |s| && p(s[r.value]) && forall j :: 0 <= j < r.value ==> !p(s[j])
    ensures r.None? ==> forall j :: 0 <= j < |s| ==> !p(s[j])
  {
    if s == [] then None
    else if p(s[0]) then Some(0)
    else
      match FirstIndex(s[1..], p)
      case None => None
      case Some(k) => Some(k + 1)
  }

  /** Enumerable.FirstOrDefault(p), with None for the default null. */
  function First<T>(s: seq<T>, p: T -> bool): Option<T>
  {
    match FirstIndex(s, p)
    case None => None
    case Some(i) => Some(s[i])
  }

  /** FirstOrDefault(p) and Where(p).ToList()[0] pick the same element: the head of the filtered list. */
  lemma {:induction false} FirstIsHeadOfFilter<T>(s: seq<T>, p: T -> bool)
    ensures First(s, p) == if Filter(s, p) == [] then None else Some(Filter(s, p)[0])
  {
    if s != [] && !p(s[0]) {
      FirstIsHeadOfFilter(s[1..], p);
    }
  }

  predicate IsHuman(p: Player) { !p.isBot }

  predicate IsBot(p: Player) { p.isBot }

  function HasId(id: string): Player -> bool
  {
    (p: Player) => p.id == id
  }

  function HasName(name: string): Player -> bool
  {
    (p: Player) => p.name == name
  }

  /** The first player with the given PlayerId, searched in the unfiltered PlayerData. */
  function FindPlayer(players: seq<Player>, id: string): (r: Option<Player>)
    ensures r.None? <==> forall i :: 0 <= i < |players| ==> players[i].id != id
    ensures r.Some? ==> exists i :: 0 <= i < |players| && players[i] == r.value && r.value.id == id
                                   && forall j :: 0 <= j < i ==> players[j].id != id
  {
    var r := First(players, HasId(id));
    assert r.Some? ==> players[FirstIndex(players, HasId(id)).value] == r.value;
    r
  }

  /** Roster statistics: Count(), Count(not bot), and the difference of the two. */
  datatype RosterStats = RosterStats(total: nat, humans: nat, bots: int)

  /**
    The player counts shown in both reports: `bots` is computed as
    total − humans, which equals the number of bots in the roster.
  */
  function Stats(roster: seq<Player>): (r: RosterStats)
    ensures r.total == |roster|
    ensures r.humans == |Filter(roster, IsHuman)|
    ensures r.bots == |Filter(roster, IsBot)|
    ensures r.humans + r.bots == r.total
  {
    FilterComplement(roster, IsHuman, IsBot);
    var total := |roster|;
    var humans := |Filter(roster, IsHuman)|;
    RosterStats(total, humans, total - humans)
  }

  /** Ordinal string order: the first differing character decides, and a proper prefix comes first. */
  predicate NameLe(a: string, b: string)
    decreases |a|
  {
    a == [] || (b != [] && (a[0] < b[0] || (a[0] == b[0] && NameLe(a[1..], b[1..]))))
  }

  lemma {:induction false} NameLeTotal(a: string, b: string)
    ensures NameLe(a, b) || NameLe(b, a)
    decreases |a|
  {
    if a != [] && b != [] && a[0] == b[0] {
      NameLeTotal(a[1..], b[1..]);
    }
  }

  lemma {:induction false} NameLeReflexive(a: string)
    ensures NameLe(a, a)
    decreases |a|
  {
    if a != [] {
      NameLeReflexive(a[1..]);
    }
  }

  predicate SortedByName(s: seq<Player>)
  {
    forall i :: 0 < i < |s| ==> NameLe(s[i - 1].name, s[i].name)
  }

  /** Places x before the first element whose name is not smaller, so x stays ahead of equal names. */
  function InsertByName(x: Player, s: seq<Player>): (r: seq<Player>)
    requires SortedByName(s)
    ensures SortedByName(r)
    ensures multiset(r) == multiset(s) + multiset{x}
    ensures |r| == |s| + 1
    ensures r[0] == x || (s != [] && r[0] == s[0])
  {
    if s == [] then [x]
    else if NameLe(x.name, s[0].name) then [x] + s
    else
      NameLeTotal(x.name, s[0].name);
      assert s == [s[0]] + s[1..];
      [s[0]] + InsertByName(x, s[1..])
  }

  /** Enumerable.OrderBy(p => p.PlayerName): sorted by name, a permutation of the input. */
  function OrderByName(s: seq<Player>): (r: seq<Player>)
    ensures SortedByName(r)
    ensures multiset(r) == multiset(s)
    ensures |r| == |s|
  {
    if s == [] then []
    else
      assert s == [s[0]] + s[1..];
      InsertByName(s[0], OrderByName(s[1..]))
  }

  lemma FilterSwap(a: Player, b: Player, f: Player -> bool)
    requires !(f(a) && f(b))
    ensures Filter([a], f) + Filter([b], f) == Filter([b], f) + Filter([a], f)
  {
    assert [a][1..] == [] && [b][1..] == [];
  }

  lemma {:induction false} InsertByNameStable(x: Player, s: seq<Player>, name: string)
    requires SortedByName(s)
    ensures Filter(InsertByName(x, s), HasName(name)) == Filter([x] + s, HasName(name))
  {
    if s != [] && !NameLe(x.name, s[0].name) {
      InsertByNameStable(x, s[1..], name);
      InsertPastHead(x, s, name);
    }
  }

  /** Moving x past a head of another name does not reorder the players of any one name. */
  lemma InsertPastHead(x: Player, s: seq<Player>, name: string)
    requires SortedByName(s) && s != [] && !NameLe(x.name, s[0].name)
    requires Filter(InsertByName(x, s[1..]), HasName(name)) == Filter([x] + s[1..], HasName(name))
    ensures Filter(InsertByName(x, s), HasName(name)) == Filter([x] + s, HasName(name))
  {
    var f := HasName(name);
    var head, tail := s[0], s[1..];
    var rest := InsertByName(x, tail);
    var before, mover, after := Filter([head], f), Filter([x], f), Filter(tail, f);
    assert s == [head] + tail;
    assert Filter(InsertByName(x, s), f) == before + (mover + after) by {
      assert InsertByName(x, s) == [head] + rest;
      FilterAppend([head], rest, f);
      FilterAppend([x], tail, f);
    }
    assert Filter([x] + s, f) == mover + (before + after) by {
      FilterAppend([x], s, f);
      FilterAppend([head], tail, f);
    }
    assert before + mover == mover + before by {
      NameLeReflexive(x.name);
      FilterSwap(head, x, f);
    }
    SwapFront(before, mover, after);
  }



  lemma SwapFront<T>(before: seq<T>, mover: seq<T>, after: seq<T>)
    requires before + mover == mover + before
    ensures before + (mover + after) == mover + (before + after)
  {
    assert before + (mover + after) == (before + mover) + after;
    assert mover + (before + after) == (mover + before) + after;
  }


  /** OrderBy is stable: players sharing a name keep their relative order. */
  lemma {:induction false} OrderByNameIsStable(s: seq<Player>, name: string)
    ensures Filter(OrderByName(s), HasName(name)) == Filter(s, HasName(name))
  {
    var f := HasName(name);
    if s != [] {
      var rest := OrderByName(s[1..]);
      OrderByNameIsStable(s[1..], name);
      InsertByNameStable(s[0], rest, name);
      assert OrderByName(s) == InsertByName(s[0], rest);
      FilterAppend([s[0]], rest, f);
      FilterAppend([s[0]], s[1..], f);
      assert s == [s[0]] + s[1..];
    }
  }

  /** The picker label "{PlayerName}: {PlayerId} - bot|human" of both front ends; it ends in " - bot" exactly for bots. */
  function PlayerLabel(p: Player): (r: string)
    ensures EndsWith(r, " - bot") <==> p.isBot
  {
    var r := p.name + ": " + p.id + " - " + (if p.isBot then "bot" else "human");
    assert !p.isBot ==> r[|r| - 6..] == " human";
    r
  }
}
